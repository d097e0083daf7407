/**
 * Specification templates from annotations. Scanning fills two maps: the
 * stage-builder definitions by id, and the pipeline-steps definitions (a
 * root pipeline's steps, or one parallel pipeline's steps) by key. Assembly
 * then makes one specification template per root definition, groups that
 * root's parallel definitions by parallel id into numbered parallel
 * pipelines, and gives every template every stage definition.
 */
module SpecTemplates {
  import opened Wrappers
  import opened Specification
  import Graphs

  /** A stage builder found on a scanned class: the id it builds for and the class's name. */
  datatype StageBuilderDef = StageBuilderDef(id: string, className: string)

  /** One steps annotation: the root pipeline it belongs to, its parallel id ("" for the root itself) and its steps. */
  datatype StepsDef = StepsDef(rootId: string, parallelId: string, steps: seq<string>)

  const DuplicateRootPrefix := "Scanned packages contain more than one PipelineSteps root definition for pipelineRootId = "

  // ---------------------------------------------------------------------
  // Stage-builder scanning
  // ---------------------------------------------------------------------

  /** The stage-builder scan of one class: each listed id to a definition naming the class; a later put replaces an earlier one. */
  function PutBuilders(m: map<string, StageBuilderDef>, className: string, ids: seq<string>): map<string, StageBuilderDef>
  {
    if ids == [] then m
    else PutBuilders(m, className, ids[..|ids| - 1])[ids[|ids| - 1] := StageBuilderDef(ids[|ids| - 1], className)]
  }

  /** After scanning a class, each of its ids names that class; every other id keeps its earlier definition. */
  lemma {:induction false} PutBuildersContents(m: map<string, StageBuilderDef>, className: string, ids: seq<string>)
    ensures PutBuilders(m, className, ids).Keys == m.Keys + set x | x in ids
    ensures forall id :: id in ids ==> PutBuilders(m, className, ids)[id] == StageBuilderDef(id, className)
    ensures forall id :: id in m && id !in ids ==> PutBuilders(m, className, ids)[id] == m[id]
  {
    if ids != [] {
      var init := ids[..|ids| - 1];
      PutBuildersContents(m, className, init);
      assert ids == init + [ids[|ids| - 1]];
      assert (set x | x in ids) == (set x | x in init) + {ids[|ids| - 1]};
    }
  }

  // ---------------------------------------------------------------------
  // Steps scanning as written: string keys
  // ---------------------------------------------------------------------

  /** The key the source files a steps definition under: the root id, or the root id followed by the running index. */
  function KeyAsWritten(d: StepsDef, index: nat): string
  {
    if d.parallelId == "" then d.rootId else d.rootId + NatToString(index)
  }

  /**
   * The steps scan of one class as written: the index starts at 0 for the
   * class and counts its parallel definitions; a root definition whose root
   * id is already a key fails the scan. The map reached so far is kept.
   */
  function ScanStepsAsWritten(m: map<string, StepsDef>, defs: seq<StepsDef>, index: nat): (map<string, StepsDef>, Option<string>)
    decreases |defs|
  {
    if defs == [] then (m, None)
    else
      var d := defs[0];
      if d.parallelId == "" && d.rootId in m then (m, Some(DuplicateRootPrefix + d.rootId))
      else ScanStepsAsWritten(m[KeyAsWritten(d, index) := d], defs[1..], if d.parallelId == "" then index else index + 1)
  }

  /**
   * One class declaring a parallel pipeline of root "a", then the root "a1",
   * then a second parallel pipeline of "a": the second parallel's key "a1"
   * replaces the root definition of "a1", silently, so no template for
   * "a1" would ever be made.
   */
  lemma {:induction false} AsWrittenLosesRootDefinition()
    ensures var r := ScanStepsAsWritten(map[], [StepsDef("a", "x", ["s"]), StepsDef("a1", "", ["t"]), StepsDef("a", "y", ["u"])], 0);
      && r.1.None?
      && StepsDef("a1", "", ["t"]) !in r.0.Values
      && forall k :: k in r.0 ==> r.0[k].parallelId != ""
  {
    var d1, d2, d3 := StepsDef("a", "x", ["s"]), StepsDef("a1", "", ["t"]), StepsDef("a", "y", ["u"]);
    var defs := [d1, d2, d3];
    assert KeyAsWritten(d1, 0) == "a0" by { assert NatToString(0) == "0"; }
    assert KeyAsWritten(d3, 1) == "a1" by { assert NatToString(1) == "1"; }
    var m1 := map["a0" := d1];
    var m2 := m1["a1" := d2];
    var m3 := m2["a1" := d3];
    assert defs[1..] == [d2, d3] && defs[1..][1..] == [d3] && defs[1..][1..][1..] == [];
    assert ScanStepsAsWritten(m2, [d3], 1) == ScanStepsAsWritten(m3, [], 2) == (m3, None);
    assert ScanStepsAsWritten(m1, [d2, d3], 1) == ScanStepsAsWritten(m2, [d3], 1);
    assert ScanStepsAsWritten(map[], defs, 0) == ScanStepsAsWritten(m1, [d2, d3], 1);
    assert m3.Keys == {"a0", "a1"} && m3["a0"] == d1 && m3["a1"] == d3;
  }

  /** A second class declaring parallel pipelines of the same root restarts at index 0 and replaces the first class's. */
  lemma {:induction false} AsWrittenLosesParallelDefinition()
    ensures var first := ScanStepsAsWritten(map[], [StepsDef("a", "x", ["s"])], 0);
      var second := ScanStepsAsWritten(first.0, [StepsDef("a", "y", ["u"])], 0);
      && first.1.None? && second.1.None?
      && StepsDef("a", "x", ["s"]) in first.0.Values
      && StepsDef("a", "x", ["s"]) !in second.0.Values
  {
    var d1, d2 := StepsDef("a", "x", ["s"]), StepsDef("a", "y", ["u"]);
    assert KeyAsWritten(d1, 0) == "a0" && KeyAsWritten(d2, 0) == "a0" by { assert NatToString(0) == "0"; }
    var m1 := map["a0" := d1];
    var m2 := map["a0" := d2];
    assert [d1][1..] == [] && [d2][1..] == [];
    assert ScanStepsAsWritten(map[], [d1], 0) == ScanStepsAsWritten(m1, [], 1) == (m1, None);
    assert ScanStepsAsWritten(m1, [d2], 0) == ScanStepsAsWritten(m1["a0" := d2], [], 1);
    assert m1["a0" := d2] == m2;
    assert "a0" in m1 && m1["a0"] == d1;
    assert d1 !in m2.Values by {
      forall k | k in m2
        ensures m2[k] != d1
      {
        assert k == "a0";
      }
    }
  }

  /**
   * The duplicate-root test looks the root id up among all keys, parallel
   * ones included: one class declaring a parallel pipeline of root "a" (key
   * "a0") and then the root "a0" fails as if "a0" had two root definitions,
   * while the scan with separate keys accepts it.
   */
  lemma {:induction false} AsWrittenRefusesFreshRoot()
    ensures ScanStepsAsWritten(map[], [StepsDef("a", "x", ["s"]), StepsDef("a0", "", ["t"])], 0).1 == Some(DuplicateRootPrefix + "a0")
    ensures ScanSteps(map[], "C", [StepsDef("a", "x", ["s"]), StepsDef("a0", "", ["t"])], 0).1.None?
  {
    var d1, d2 := StepsDef("a", "x", ["s"]), StepsDef("a0", "", ["t"]);
    var defs := [d1, d2];
    assert KeyAsWritten(d1, 0) == "a0" by { assert NatToString(0) == "0"; }
    assert defs[1..] == [d2] && defs[1..][1..] == [];
    var m1 := map["a0" := d1];
    assert ScanStepsAsWritten(map[], defs, 0) == ScanStepsAsWritten(m1, [d2], 1);
    assert "a0" in m1;
    var k1 := map[ParallelKey("C", "a", 0) := d1];
    assert ScanSteps(map[], "C", defs, 0) == ScanSteps(k1, "C", [d2], 1);
    assert RootKey("a0") !in k1;
    assert ScanSteps(k1, "C", [d2], 1) == ScanSteps(k1[RootKey("a0") := d2], "C", [], 1);
  }

  // ---------------------------------------------------------------------
  // Steps scanning with keys that cannot collide
  // ---------------------------------------------------------------------

  /** A root definition is filed under its root id; a parallel one under its class, root id and running index. */
  datatype StepsKey = RootKey(rootId: string) | ParallelKey(className: string, rootId: string, index: nat)

  function Key(className: string, d: StepsDef, index: nat): StepsKey
  {
    if d.parallelId == "" then RootKey(d.rootId) else ParallelKey(className, d.rootId, index)
  }

  /** The steps scan of one class, with the same duplicate-root rule and the same running index. */
  function ScanSteps(m: map<StepsKey, StepsDef>, className: string, defs: seq<StepsDef>, index: nat)
    : (map<StepsKey, StepsDef>, Option<string>)
    decreases |defs|
  {
    if defs == [] then (m, None)
    else
      var d := defs[0];
      if d.parallelId == "" && RootKey(d.rootId) in m then (m, Some(DuplicateRootPrefix + d.rootId))
      else ScanSteps(m[Key(className, d, index) := d], className, defs[1..], if d.parallelId == "" then index else index + 1)
  }

  /** A key records its definition's kind and root: root keys hold root definitions, parallel keys parallel ones. */
  ghost predicate KeysAgree(m: map<StepsKey, StepsDef>)
  {
    forall k :: k in m ==> m[k].rootId == k.rootId && (k.RootKey? <==> m[k].parallelId == "")
  }

  /** Scanning keeps keys and definitions in agreement. */
  lemma {:induction false} ScanStepsKeysAgree(m: map<StepsKey, StepsDef>, className: string, defs: seq<StepsDef>, index: nat)
    requires KeysAgree(m)
    ensures KeysAgree(ScanSteps(m, className, defs, index).0)
    decreases |defs|
  {
    if defs != [] {
      var d := defs[0];
      if !(d.parallelId == "" && RootKey(d.rootId) in m) {
        ScanStepsKeysAgree(m[Key(className, d, index) := d], className, defs[1..], if d.parallelId == "" then index else index + 1);
      }
    }
  }

  /** Scanning never removes or replaces a root definition, nor a definition of another class. */
  lemma {:induction false} ScanPreserves(m: map<StepsKey, StepsDef>, className: string, defs: seq<StepsDef>, index: nat)
    ensures forall k :: k in m && (k.RootKey? || k.className != className) ==>
      k in ScanSteps(m, className, defs, index).0 && ScanSteps(m, className, defs, index).0[k] == m[k]
    decreases |defs|
  {
    if defs != [] {
      var d := defs[0];
      if !(d.parallelId == "" && RootKey(d.rootId) in m) {
        var m' := m[Key(className, d, index) := d];
        ScanPreserves(m', className, defs[1..], if d.parallelId == "" then index else index + 1);
      }
    }
  }

  /**
   * A scan that succeeds, starting from a map whose parallel keys of this
   * class all lie below the running index, keeps every earlier entry and
   * files every definition it meets: none is lost to a later key.
   */
  lemma {:induction false} ScanKeepsEveryDefinition(m: map<StepsKey, StepsDef>, className: string, defs: seq<StepsDef>, index: nat)
    requires forall k :: k in m && k.ParallelKey? && k.className == className ==> k.index < index
    ensures var r := ScanSteps(m, className, defs, index);
      r.1.None? ==>
        && (forall k :: k in m ==> k in r.0 && r.0[k] == m[k])
        && (forall i :: 0 <= i < |defs| ==> defs[i] in r.0.Values)
    decreases |defs|
  {
    if defs != [] {
      var d := defs[0];
      if !(d.parallelId == "" && RootKey(d.rootId) in m) {
        var key := Key(className, d, index);
        var index' := if d.parallelId == "" then index else index + 1;
        var m' := m[key := d];
        ScanKeepsEveryDefinition(m', className, defs[1..], index');
        var r := ScanSteps(m, className, defs, index);
        if r.1.None? {
          assert key !in m;
          assert key in r.0 && r.0[key] == d;
          forall i | 0 <= i < |defs|
            ensures defs[i] in r.0.Values
          {
            if i > 0 {
              assert defs[i] == defs[1..][i - 1];
            }
          }
        }
      }
    }
  }

  /**
   * A root definition is repeated when its root id already has a root key,
   * or an earlier definition in the same class is a root definition of the
   * same id.
   */
  ghost predicate RootRepeated(m: map<StepsKey, StepsDef>, defs: seq<StepsDef>)
  {
    exists i :: 0 <= i < |defs| && defs[i].parallelId == "" &&
      (RootKey(defs[i].rootId) in m || exists j :: 0 <= j < i && defs[j].parallelId == "" && defs[j].rootId == defs[i].rootId)
  }

  /** The scan of a class fails exactly when one of its root definitions repeats a root id. */
  lemma {:induction false} ScanRejectsIffRootRepeated(m: map<StepsKey, StepsDef>, className: string, defs: seq<StepsDef>, index: nat)
    ensures ScanSteps(m, className, defs, index).1.Some? <==> RootRepeated(m, defs)
    decreases |defs|
  {
    if defs != [] {
      var d := defs[0];
      if d.parallelId == "" && RootKey(d.rootId) in m {
        assert defs[0].parallelId == "" && RootKey(defs[0].rootId) in m;
      } else {
        var m' := m[Key(className, d, index) := d];
        var rest := defs[1..];
        ScanRejectsIffRootRepeated(m', className, rest, if d.parallelId == "" then index else index + 1);
        if RootRepeated(m', rest) {
          var i :| 0 <= i < |rest| && rest[i].parallelId == "" &&
            (RootKey(rest[i].rootId) in m' || exists j :: 0 <= j < i && rest[j].parallelId == "" && rest[j].rootId == rest[i].rootId);
          assert defs[i + 1] == rest[i];
          if RootKey(rest[i].rootId) !in m {
            if RootKey(rest[i].rootId) in m' {
              assert defs[0].parallelId == "" && defs[0].rootId == defs[i + 1].rootId;
            } else {
              var j :| 0 <= j < i && rest[j].parallelId == "" && rest[j].rootId == rest[i].rootId;
              assert defs[j + 1] == rest[j];
            }
          }
        }
        if RootRepeated(m, defs) {
          var i :| 0 <= i < |defs| && defs[i].parallelId == "" &&
            (RootKey(defs[i].rootId) in m || exists j :: 0 <= j < i && defs[j].parallelId == "" && defs[j].rootId == defs[i].rootId);
          assert i > 0;
          assert rest[i - 1] == defs[i];
          if RootKey(defs[i].rootId) !in m {
            var j :| 0 <= j < i && defs[j].parallelId == "" && defs[j].rootId == defs[i].rootId;
            if j == 0 {
              assert RootKey(rest[i - 1].rootId) in m';
            } else {
              assert rest[j - 1] == defs[j];
            }
          }
        }
      }
    }
  }

  // ---------------------------------------------------------------------
  // Assembly
  // ---------------------------------------------------------------------

  /** `ks` lists the set `s`, each element once: one iteration order of a hash map's keys. */
  ghost predicate Enumerates<K(!new)>(ks: seq<K>, s: set<K>)
  {
    Graphs.Distinct(ks) && forall k :: k in ks <==> k in s
  }

  /** The values under the keys `ks`, in that order: a map's values as its iteration yields them. */
  function ValuesIn<K, V>(m: map<K, V>, ks: seq<K>): seq<V>
    requires forall k :: k in ks ==> k in m
  {
    seq(|ks|, i requires 0 <= i < |ks| => m[ks[i]])
  }

  /** The root definitions among `ds`, in order. */
  function RootDefs(ds: seq<StepsDef>): (r: seq<StepsDef>)
    ensures forall d :: d in r <==> d in ds && d.parallelId == ""
  {
    if ds == [] then []
    else
      var d := ds[|ds| - 1];
      if d.parallelId == "" then RootDefs(ds[..|ds| - 1]) + [d] else RootDefs(ds[..|ds| - 1])
  }

  /** The parallel definitions among `ds`, in order. */
  function ParallelDefs(ds: seq<StepsDef>): (r: seq<StepsDef>)
    ensures forall d :: d in r <==> d in ds && d.parallelId != ""
  {
    if ds == [] then []
    else
      var d := ds[|ds| - 1];
      if d.parallelId != "" then ParallelDefs(ds[..|ds| - 1]) + [d] else ParallelDefs(ds[..|ds| - 1])
  }

  /** The definitions among `ds` that belong to the root `rootId`, in order. */
  function OfRoot(ds: seq<StepsDef>, rootId: string): (r: seq<StepsDef>)
    ensures forall d :: d in r <==> d in ds && d.rootId == rootId
  {
    if ds == [] then []
    else
      var d := ds[|ds| - 1];
      if d.rootId == rootId then OfRoot(ds[..|ds| - 1], rootId) + [d] else OfRoot(ds[..|ds| - 1], rootId)
  }

  /** The root keys among `ks`, in order. */
  function RootKeys(ks: seq<StepsKey>): (r: seq<StepsKey>)
    ensures forall k :: k in r <==> k in ks && k.RootKey?
  {
    if ks == [] then []
    else
      var k := ks[|ks| - 1];
      if k.RootKey? then RootKeys(ks[..|ks| - 1]) + [k] else RootKeys(ks[..|ks| - 1])
  }

  /** Filtering a list without repeats leaves a list without repeats. */
  lemma {:induction false} RootKeysDistinct(ks: seq<StepsKey>)
    requires Graphs.Distinct(ks)
    ensures Graphs.Distinct(RootKeys(ks))
  {
    if ks != [] {
      var init := ks[..|ks| - 1];
      assert Graphs.Distinct(init);
      RootKeysDistinct(init);
      assert ks[|ks| - 1] !in init;
    }
  }

  /** Under agreeing keys, the root definitions among the values are the values under the root keys. */
  lemma {:induction false} RootDefsAsKeys(defs: map<StepsKey, StepsDef>, ks: seq<StepsKey>)
    requires KeysAgree(defs) && forall k :: k in ks ==> k in defs
    ensures RootDefs(ValuesIn(defs, ks)) == ValuesIn(defs, RootKeys(ks))
  {
    if ks != [] {
      var init := ks[..|ks| - 1];
      RootDefsAsKeys(defs, init);
      assert ValuesIn(defs, ks)[..|ks| - 1] == ValuesIn(defs, init);
      var k := ks[|ks| - 1];
      if k.RootKey? {
        assert ValuesIn(defs, RootKeys(ks)) == ValuesIn(defs, RootKeys(init)) + [defs[k]];
      }
    }
  }

  /** One template per root definition, each with the root's id and steps; a later root id replaces an earlier one. */
  function RootTemplates(roots: seq<StepsDef>): map<string, Spec>
  {
    if roots == [] then map[]
    else
      var d := roots[|roots| - 1];
      RootTemplates(roots[..|roots| - 1])[d.rootId := Spec(d.rootId, true, [], [], d.steps)]
  }

  /** With root ids all different, every root definition has its own template, and there are no others. */
  lemma {:induction false} RootTemplatesContents(roots: seq<StepsDef>)
    requires forall i, j :: 0 <= i < j < |roots| ==> roots[i].rootId != roots[j].rootId
    ensures RootTemplates(roots).Keys == set d | d in roots :: d.rootId
    ensures forall i :: 0 <= i < |roots| ==>
      RootTemplates(roots)[roots[i].rootId] == Spec(roots[i].rootId, true, [], [], roots[i].steps)
  {
    if roots != [] {
      var init := roots[..|roots| - 1];
      RootTemplatesContents(init);
      assert roots == init + [roots[|roots| - 1]];
    }
  }

  /** The position of the group with the given parallel id, or the number of groups when there is none. */
  function GroupIndex(groups: seq<ParallelDef>, id: string): (k: nat)
    ensures k <= |groups| && (k < |groups| ==> groups[k].id == id)
    ensures forall j :: 0 <= j < k ==> groups[j].id != id
  {
    if groups == [] then 0
    else if groups[0].id == id then 0
    else 1 + GroupIndex(groups[1..], id)
  }

  /**
   * A parallel definition joins the group of its parallel id, as the next
   * numbered pipeline; a parallel id seen for the first time opens a new
   * group.
   */
  function AddTo(groups: seq<ParallelDef>, d: StepsDef): seq<ParallelDef>
  {
    var k := GroupIndex(groups, d.parallelId);
    if k < |groups| then
      groups[k := ParallelDef(groups[k].id, groups[k].pipelines + [PipelineDef(PipelineId(groups[k].id, |groups[k].pipelines|), d.steps)])]
    else groups + [ParallelDef(d.parallelId, [PipelineDef(PipelineId(d.parallelId, 0), d.steps)])]
  }

  /** The parallel definitions of one template, grouped by parallel id in order of first appearance. */
  function Grouped(ds: seq<StepsDef>): seq<ParallelDef>
  {
    if ds == [] then [] else AddTo(Grouped(ds[..|ds| - 1]), ds[|ds| - 1])
  }

  /** The steps of the definitions in `ds` that carry the parallel id `id`, in order. */
  function StepsWith(ds: seq<StepsDef>, id: string): seq<seq<string>>
  {
    if ds == [] then []
    else
      var d := ds[|ds| - 1];
      if d.parallelId == id then StepsWith(ds[..|ds| - 1], id) + [d.steps] else StepsWith(ds[..|ds| - 1], id)
  }

  /** The steps of each pipeline, in order. */
  function PipelineSteps(ps: seq<PipelineDef>): seq<seq<string>>
  {
    seq(|ps|, i requires 0 <= i < |ps| => ps[i].steps)
  }

  /** Appending a definition adds its steps to its own parallel id's list and leaves the others. */
  lemma {:induction false} StepsWithAppend(ds: seq<StepsDef>, d: StepsDef, x: string)
    ensures StepsWith(ds + [d], x) == if d.parallelId == x then StepsWith(ds, x) + [d.steps] else StepsWith(ds, x)
  {
    assert (ds + [d])[..|ds|] == ds;
  }

  /** No two groups share a parallel id. */
  ghost predicate GroupIdsDistinct(groups: seq<ParallelDef>)
  {
    forall i, j :: 0 <= i < j < |groups| ==> groups[i].id != groups[j].id
  }

  /** Each group's pipelines are numbered from 0 under the group's id. */
  ghost predicate GroupsNumbered(groups: seq<ParallelDef>)
  {
    forall i :: 0 <= i < |groups| ==> WellNumbered(groups[i].id, groups[i].pipelines)
  }

  /** Each group carries, in order, the steps of exactly the definitions with its id. */
  ghost predicate GroupsCarry(groups: seq<ParallelDef>, ds: seq<StepsDef>)
  {
    forall i :: 0 <= i < |groups| ==> PipelineSteps(groups[i].pipelines) == StepsWith(ds, groups[i].id)
  }

  /** Every group comes from some definition, and no definition is outside a group. */
  ghost predicate GroupsCover(groups: seq<ParallelDef>, ds: seq<StepsDef>)
  {
    && (forall i :: 0 <= i < |groups| ==> exists d :: d in ds && d.parallelId == groups[i].id)
    && (forall x :: (forall i :: 0 <= i < |groups| ==> groups[i].id != x) ==> StepsWith(ds, x) == [])
  }

  /**
   * `groups` is a grouping of `ds`: one group per parallel id, each id once;
   * a group's pipelines are numbered from 0 and carry, in order, the steps of
   * exactly the definitions with its id; no definition is outside a group.
   */
  ghost predicate GroupsOf(groups: seq<ParallelDef>, ds: seq<StepsDef>)
  {
    GroupIdsDistinct(groups) && GroupsNumbered(groups) && GroupsCarry(groups, ds) && GroupsCover(groups, ds)
  }

  /** Adding to an existing group changes that group alone, by one more numbered pipeline. */
  lemma {:induction false} AddToExisting(groups: seq<ParallelDef>, d: StepsDef, k: nat)
    requires k == GroupIndex(groups, d.parallelId) && k < |groups|
    ensures |AddTo(groups, d)| == |groups|
    ensures forall i :: 0 <= i < |groups| && i != k ==> AddTo(groups, d)[i] == groups[i]
    ensures AddTo(groups, d)[k] ==
      ParallelDef(groups[k].id, groups[k].pipelines + [PipelineDef(PipelineId(groups[k].id, |groups[k].pipelines|), d.steps)])
  {
  }

  /** `after` is `groups` with group `k`, of id `d.parallelId`, extended by the next numbered pipeline of `d`'s steps. */
  ghost predicate ExtendsGroup(groups: seq<ParallelDef>, after: seq<ParallelDef>, d: StepsDef, k: nat)
  {
    && k < |groups| && groups[k].id == d.parallelId && |after| == |groups|
    && (forall i :: 0 <= i < |groups| && i != k ==> after[i] == groups[i])
    && after[k] == ParallelDef(groups[k].id, groups[k].pipelines + [PipelineDef(PipelineId(groups[k].id, |groups[k].pipelines|), d.steps)])
  }

  lemma {:induction false} ExtendKeepsNumbering(groups: seq<ParallelDef>, after: seq<ParallelDef>, d: StepsDef, k: nat)
    requires ExtendsGroup(groups, after, d, k) && GroupIdsDistinct(groups) && GroupsNumbered(groups)
    ensures GroupIdsDistinct(after) && GroupsNumbered(after)
  {
    assert forall i :: 0 <= i < |after| ==> after[i].id == groups[i].id;
    forall i | 0 <= i < |after|
      ensures WellNumbered(after[i].id, after[i].pipelines)
    {
      if i == k {
        assert WellNumbered(groups[k].id, groups[k].pipelines);
      } else {
        assert WellNumbered(groups[i].id, groups[i].pipelines);
      }
    }
  }

  lemma {:induction false} ExtendKeepsCarry(groups: seq<ParallelDef>, after: seq<ParallelDef>, ds: seq<StepsDef>, d: StepsDef, k: nat)
    requires ExtendsGroup(groups, after, d, k) && GroupIdsDistinct(groups) && GroupsCarry(groups, ds)
    ensures GroupsCarry(after, ds + [d])
  {
    forall i | 0 <= i < |after|
      ensures PipelineSteps(after[i].pipelines) == StepsWith(ds + [d], after[i].id)
    {
      StepsWithAppend(ds, d, after[i].id);
      if i == k {
        var ps := groups[k].pipelines;
        var p := PipelineDef(PipelineId(groups[k].id, |ps|), d.steps);
        assert PipelineSteps(ps + [p]) == PipelineSteps(ps) + [d.steps];
      } else {
        assert groups[i].id != groups[k].id;
      }
    }
  }

  lemma {:induction false} ExtendKeepsCover(groups: seq<ParallelDef>, after: seq<ParallelDef>, ds: seq<StepsDef>, d: StepsDef, k: nat)
    requires ExtendsGroup(groups, after, d, k) && GroupsCover(groups, ds)
    ensures GroupsCover(after, ds + [d])
  {
    assert forall i :: 0 <= i < |after| ==> after[i].id == groups[i].id;
    forall i | 0 <= i < |after|
      ensures exists e :: e in ds + [d] && e.parallelId == after[i].id
    {
      var e :| e in ds && e.parallelId == groups[i].id;
      assert e in ds + [d];
    }
    forall x | forall i :: 0 <= i < |after| ==> after[i].id != x
      ensures StepsWith(ds + [d], x) == []
    {
      StepsWithAppend(ds, d, x);
      assert after[k].id != x;
    }
  }

  /** Adding to an existing group keeps the grouping. */
  lemma {:induction false} AddToExistingGroup(groups: seq<ParallelDef>, ds: seq<StepsDef>, d: StepsDef)
    requires GroupsOf(groups, ds) && GroupIndex(groups, d.parallelId) < |groups|
    ensures GroupsOf(AddTo(groups, d), ds + [d])
  {
    var k := GroupIndex(groups, d.parallelId);
    AddToExisting(groups, d, k);
    var after := AddTo(groups, d);
    assert ExtendsGroup(groups, after, d, k);
    ExtendKeepsNumbering(groups, after, d, k);
    ExtendKeepsCarry(groups, after, ds, d, k);
    ExtendKeepsCover(groups, after, ds, d, k);
  }

  /** Opening a group for a parallel id seen for the first time keeps the grouping. */
  lemma {:induction false} AddToNewGroup(groups: seq<ParallelDef>, ds: seq<StepsDef>, d: StepsDef)
    requires GroupsOf(groups, ds) && GroupIndex(groups, d.parallelId) == |groups|
    ensures GroupsOf(AddTo(groups, d), ds + [d])
  {
    var n := |groups|;
    var g' := AddTo(groups, d);
    assert g' == groups + [ParallelDef(d.parallelId, [PipelineDef(PipelineId(d.parallelId, 0), d.steps)])];
    assert forall i :: 0 <= i < n ==> g'[i] == groups[i] && groups[i].id != d.parallelId;
    assert GroupIdsDistinct(g');
    assert GroupsNumbered(g') by {
      forall i | 0 <= i < |g'|
        ensures WellNumbered(g'[i].id, g'[i].pipelines)
      {
        if i < n {
          assert WellNumbered(groups[i].id, groups[i].pipelines);
        }
      }
    }
    assert GroupsCarry(g', ds + [d]) by {
      forall i | 0 <= i < |g'|
        ensures PipelineSteps(g'[i].pipelines) == StepsWith(ds + [d], g'[i].id)
      {
        StepsWithAppend(ds, d, g'[i].id);
        if i == n {
          assert StepsWith(ds, d.parallelId) == [];
          assert PipelineSteps(g'[n].pipelines) == [d.steps];
        }
      }
    }
    assert GroupsCover(g', ds + [d]) by {
      forall i | 0 <= i < |g'|
        ensures exists e :: e in ds + [d] && e.parallelId == g'[i].id
      {
        if i < n {
          var e :| e in ds && e.parallelId == groups[i].id;
          assert e in ds + [d];
        } else {
          assert d in ds + [d];
        }
      }
      forall x | forall i :: 0 <= i < |g'| ==> g'[i].id != x
        ensures StepsWith(ds + [d], x) == []
      {
        StepsWithAppend(ds, d, x);
        assert g'[n].id != x;
      }
    }
  }

  /** Grouping the definitions one by one yields a grouping of them all. */
  lemma {:induction false} GroupedShape(ds: seq<StepsDef>)
    ensures GroupsOf(Grouped(ds), ds)
  {
    if ds != [] {
      var init := ds[..|ds| - 1];
      var d := ds[|ds| - 1];
      GroupedShape(init);
      assert ds == init + [d];
      if GroupIndex(Grouped(init), d.parallelId) < |Grouped(init)| {
        AddToExistingGroup(Grouped(init), init, d);
      } else {
        AddToNewGroup(Grouped(init), init, d);
      }
    }
  }

  /** The parallel ids of the groups. */
  function GroupIds(groups: seq<ParallelDef>): set<string>
  {
    set i | 0 <= i < |groups| :: groups[i].id
  }

  /**
   * The groups listed in the given order of their ids, as a map's values come
   * out of its iteration; an id with no group contributes nothing.
   */
  function Arranged(groups: seq<ParallelDef>, order: seq<string>): seq<ParallelDef>
  {
    if order == [] then []
    else
      var k := GroupIndex(groups, order[0]);
      (if k < |groups| then [groups[k]] else []) + Arranged(groups, order[1..])
  }

  /** `groups` lists the groups of `reference` in one iteration order of their ids. */
  ghost predicate ListedInSomeOrder(groups: seq<ParallelDef>, reference: seq<ParallelDef>)
  {
    exists order :: Enumerates(order, GroupIds(reference)) && groups == Arranged(reference, order)
  }

  /** Listed by ids that all have a group, position `i` holds the group of the `i`-th id. */
  lemma {:induction false} ArrangedIndex(groups: seq<ParallelDef>, order: seq<string>)
    requires forall x :: x in order ==> x in GroupIds(groups)
    ensures |Arranged(groups, order)| == |order|
    ensures forall i :: 0 <= i < |order| ==>
      GroupIndex(groups, order[i]) < |groups| && Arranged(groups, order)[i] == groups[GroupIndex(groups, order[i])]
  {
    if order != [] {
      assert order[0] in GroupIds(groups);
      var j :| 0 <= j < |groups| && groups[j].id == order[0];
      assert GroupIndex(groups, order[0]) < |groups|;
      var t := order[1..];
      assert forall x :: x in t ==> x in order;
      ArrangedIndex(groups, t);
      forall i | 1 <= i < |order|
        ensures Arranged(groups, order)[i] == groups[GroupIndex(groups, order[i])]
      {
        assert t[i - 1] == order[i];
      }
    }
  }

  /**
   * Listing a grouping's groups in any iteration order of their ids is still
   * a grouping of the same definitions: the order in which the parallel
   * groups come out of their hash map does not matter to the grouping.
   */
  lemma {:induction false} ArrangedGroupsOf(groups: seq<ParallelDef>, ds: seq<StepsDef>, order: seq<string>)
    requires GroupsOf(groups, ds) && Enumerates(order, GroupIds(groups))
    ensures GroupsOf(Arranged(groups, order), ds)
  {
    ArrangedIndex(groups, order);
    var a := Arranged(groups, order);
    assert forall i :: 0 <= i < |a| ==> a[i].id == order[i];
    assert GroupIdsDistinct(a);
    assert GroupsNumbered(a) by {
      forall i | 0 <= i < |a|
        ensures WellNumbered(a[i].id, a[i].pipelines)
      {
        var k := GroupIndex(groups, order[i]);
        assert WellNumbered(groups[k].id, groups[k].pipelines);
      }
    }
    assert GroupsCarry(a, ds) by {
      forall i | 0 <= i < |a|
        ensures PipelineSteps(a[i].pipelines) == StepsWith(ds, a[i].id)
      {
        var k := GroupIndex(groups, order[i]);
        assert PipelineSteps(groups[k].pipelines) == StepsWith(ds, groups[k].id);
      }
    }
    assert GroupsCover(a, ds) by {
      forall i | 0 <= i < |a|
        ensures exists d :: d in ds && d.parallelId == a[i].id
      {
        var k := GroupIndex(groups, order[i]);
        assert exists d :: d in ds && d.parallelId == groups[k].id;
      }
      forall x | forall i :: 0 <= i < |a| ==> a[i].id != x
        ensures StepsWith(ds, x) == []
      {
        assert x !in order;
        forall k | 0 <= k < |groups|
          ensures groups[k].id != x
        {
          assert groups[k].id in GroupIds(groups);
        }
      }
    }
  }

  /** Groups listed in some order of a grouping of `ds` are themselves a grouping of `ds`. */
  lemma {:induction false} ListedGroupsOf(groups: seq<ParallelDef>, reference: seq<ParallelDef>, ds: seq<StepsDef>)
    requires ListedInSomeOrder(groups, reference) && GroupsOf(reference, ds)
    ensures GroupsOf(groups, ds)
  {
    var order :| Enumerates(order, GroupIds(reference)) && groups == Arranged(reference, order);
    ArrangedGroupsOf(reference, ds, order);
  }

  /**
   * `t` is `reference` with each template's parallel groups listed in some
   * iteration order of their ids, and otherwise the same.
   */
  ghost predicate RearrangedFrom(t: map<string, Spec>, reference: map<string, Spec>)
  {
    && t.Keys == reference.Keys
    && forall id :: id in t ==>
         && t[id] == reference[id].(parallels := t[id].parallels)
         && ListedInSomeOrder(t[id].parallels, reference[id].parallels)
  }

  /** Every template's stage list: one stage per stage-builder definition, in the map's iteration order. */
  function StageList(builders: map<string, StageBuilderDef>, order: seq<string>): seq<StageDef>
    requires forall k :: k in order ==> k in builders
  {
    seq(|order|, i requires 0 <= i < |order| => StageDef(builders[order[i]].id, builders[order[i]].className))
  }

  /** Each template given the parallels of its own root, grouped in order of first appearance. */
  function WithParallels(templates: map<string, Spec>, parallels: seq<StepsDef>): map<string, Spec>
  {
    map id | id in templates :: templates[id].(parallels := Grouped(OfRoot(parallels, id)))
  }

  /** Each template given the same stage list. */
  function WithStages(templates: map<string, Spec>, stages: seq<StageDef>): map<string, Spec>
  {
    map id | id in templates :: templates[id].(stages := stages)
  }

  /**
   * The templates assembled from the scanned maps, given the maps' iteration
   * orders: one per root definition, then each given its root's parallels
   * grouped, then every stage definition.
   */
  function Templates(builders: map<string, StageBuilderDef>, builderOrder: seq<string>,
                     defs: map<StepsKey, StepsDef>, order: seq<StepsKey>): map<string, Spec>
    requires forall k :: k in builderOrder ==> k in builders
    requires forall k :: k in order ==> k in defs
  {
    var values := ValuesIn(defs, order);
    WithStages(WithParallels(RootTemplates(RootDefs(values)), ParallelDefs(values)), StageList(builders, builderOrder))
  }

  /** A list that enumerates a set has as many elements as the set. */
  lemma {:induction false} EnumerationSize<K(!new)>(ks: seq<K>, s: set<K>)
    requires Enumerates(ks, s)
    ensures |ks| == |s|
  {
    if ks != [] {
      var init := ks[..|ks| - 1];
      var last := ks[|ks| - 1];
      assert Enumerates(init, s - {last}) by {
        forall k
          ensures k in init <==> k in s - {last}
        {
          if k in init {
            var i :| 0 <= i < |init| && init[i] == k;
            assert ks[i] != ks[|ks| - 1];
          }
          if k in s - {last} {
            var i :| 0 <= i < |ks| && ks[i] == k;
            assert i != |ks| - 1;
            assert init[i] == k;
          }
        }
      }
      EnumerationSize(init, s - {last});
    } else {
      assert forall k :: k !in s;
      assert s == {};
    }
  }

  /** A definition's steps are among the steps of its own parallel id. */
  lemma {:induction false} StepsWithMember(ds: seq<StepsDef>, d: StepsDef)
    requires d in ds
    ensures d.steps in StepsWith(ds, d.parallelId)
  {
    var init := ds[..|ds| - 1];
    if ds[|ds| - 1] != d {
      assert d in init by {
        var i :| 0 <= i < |ds| && ds[i] == d;
        assert init[i] == d;
      }
      StepsWithMember(init, d);
    }
  }

  /** Under agreeing keys, the root definitions met in iteration order have pairwise different root ids, one per root key. */
  lemma {:induction false} RootDefsDistinct(defs: map<StepsKey, StepsDef>, order: seq<StepsKey>)
    requires Enumerates(order, defs.Keys) && KeysAgree(defs)
    ensures var roots := RootDefs(ValuesIn(defs, order));
      && |roots| == |RootKeys(order)|
      && (forall i :: 0 <= i < |roots| ==> roots[i] == defs[RootKeys(order)[i]] && roots[i].rootId == RootKeys(order)[i].rootId)
      && (forall i, j :: 0 <= i < j < |roots| ==> roots[i].rootId != roots[j].rootId)
  {
    var rks := RootKeys(order);
    RootDefsAsKeys(defs, order);
    RootKeysDistinct(order);
    var roots := ValuesIn(defs, rks);
    forall i, j | 0 <= i < j < |roots|
      ensures roots[i].rootId != roots[j].rootId
    {
      assert rks[i] != rks[j];
      assert rks[i].RootKey? && rks[j].RootKey?;
    }
  }

  /** The templates are the root templates, each given its parallels and the stage list. */
  lemma {:induction false} TemplatesFromRoots(builders: map<string, StageBuilderDef>, builderOrder: seq<string>,
                                              defs: map<StepsKey, StepsDef>, order: seq<StepsKey>)
    requires forall k :: k in builderOrder ==> k in builders
    requires forall k :: k in order ==> k in defs
    ensures var t := Templates(builders, builderOrder, defs, order);
      var roots := RootTemplates(RootDefs(ValuesIn(defs, order)));
      && t.Keys == roots.Keys
      && forall id :: id in t ==> t[id].id == roots[id].id && t[id].fastFail == roots[id].fastFail && t[id].steps == roots[id].steps
  {
  }

  /** The root keys of a scanned map, as root ids. */
  function RootIds(defs: map<StepsKey, StepsDef>): set<string>
  {
    set k | k in defs && k.RootKey? :: k.rootId
  }

  /** Every root key of the map is met, at the position of its root definition. */
  lemma {:induction false} RootKeyPosition(defs: map<StepsKey, StepsDef>, order: seq<StepsKey>, k: StepsKey)
    requires Enumerates(order, defs.Keys) && KeysAgree(defs) && k in defs && k.RootKey?
    ensures exists i :: 0 <= i < |RootDefs(ValuesIn(defs, order))| && RootDefs(ValuesIn(defs, order))[i] == defs[k]
  {
    RootDefsDistinct(defs, order);
    var rks := RootKeys(order);
    assert k in rks;
    var i :| 0 <= i < |rks| && rks[i] == k;
    assert RootDefs(ValuesIn(defs, order))[i] == defs[k];
  }

  /** The root templates of the scanned map: one per root key, named by its root id, with that definition's steps. */
  lemma {:induction false} RootTemplatesOfDefs(defs: map<StepsKey, StepsDef>, order: seq<StepsKey>)
    requires Enumerates(order, defs.Keys) && KeysAgree(defs)
    ensures var r := RootTemplates(RootDefs(ValuesIn(defs, order)));
      && r.Keys == RootIds(defs)
      && forall k :: k in defs && k.RootKey? ==> r[k.rootId] == Spec(k.rootId, true, [], [], defs[k].steps)
  {
    var roots := RootDefs(ValuesIn(defs, order));
    RootDefsDistinct(defs, order);
    RootTemplatesContents(roots);
    var r := RootTemplates(roots);
    forall x | x in r
      ensures x in RootIds(defs)
    {
      var i :| 0 <= i < |roots| && roots[i].rootId == x;
      var rk := RootKeys(order)[i];
      assert rk in defs && rk.RootKey? && rk.rootId == x;
    }
    forall k | k in defs && k.RootKey?
      ensures k.rootId in r && r[k.rootId] == Spec(k.rootId, true, [], [], defs[k].steps)
    {
      RootKeyPosition(defs, order, k);
      var i :| 0 <= i < |roots| && roots[i] == defs[k];
    }
  }

  /**
   * There is one template per root key, named by its root id, holding that
   * root definition's steps, with fast-fail on.
   */
  lemma {:induction false} TemplatesRoots(builders: map<string, StageBuilderDef>, builderOrder: seq<string>,
                                          defs: map<StepsKey, StepsDef>, order: seq<StepsKey>)
    requires forall k :: k in builderOrder ==> k in builders
    requires Enumerates(order, defs.Keys) && KeysAgree(defs)
    ensures var t := Templates(builders, builderOrder, defs, order);
      && t.Keys == RootIds(defs)
      && forall k :: k in defs && k.RootKey? ==>
           t[k.rootId].id == k.rootId && t[k.rootId].fastFail && t[k.rootId].steps == defs[k].steps
  {
    RootTemplatesOfDefs(defs, order);
    TemplatesFromRoots(builders, builderOrder, defs, order);
  }

  /** Every template holds the same stage list: one stage per stage-builder definition. */
  lemma {:induction false} TemplatesStages(builders: map<string, StageBuilderDef>, builderOrder: seq<string>,
                                           defs: map<StepsKey, StepsDef>, order: seq<StepsKey>)
    requires Enumerates(builderOrder, builders.Keys)
    requires forall k :: k in order ==> k in defs
    ensures var t := Templates(builders, builderOrder, defs, order);
      && (forall a, b :: a in t && b in t ==> t[a].stages == t[b].stages)
      && forall id :: id in t ==>
           && |t[id].stages| == |builders|
           && forall sd :: sd in t[id].stages <==> exists b :: b in builders.Values && sd == StageDef(b.id, b.className)
  {
    EnumerationSize(builderOrder, builders.Keys);
    var stages := StageList(builders, builderOrder);
    forall sd
      ensures sd in stages <==> exists b :: b in builders.Values && sd == StageDef(b.id, b.className)
    {
      if sd in stages {
        var i :| 0 <= i < |stages| && stages[i] == sd;
        assert builders[builderOrder[i]] in builders.Values;
      }
      if exists b :: b in builders.Values && sd == StageDef(b.id, b.className) {
        var b :| b in builders.Values && sd == StageDef(b.id, b.className);
        var x :| x in builders && builders[x] == b;
        var i :| 0 <= i < |builderOrder| && builderOrder[i] == x;
        assert stages[i] == sd;
      }
    }
  }

  /**
   * Each template's parallels group exactly its root's parallel definitions
   * by parallel id, and every parallel definition of the root has its steps
   * in the group of its id.
   */
  lemma {:induction false} TemplatesParallels(builders: map<string, StageBuilderDef>, builderOrder: seq<string>,
                                              defs: map<StepsKey, StepsDef>, order: seq<StepsKey>)
    requires forall k :: k in builderOrder ==> k in builders
    requires Enumerates(order, defs.Keys) && KeysAgree(defs)
    ensures var t := Templates(builders, builderOrder, defs, order);
      && (forall id :: id in t ==> GroupsOf(t[id].parallels, OfRoot(ParallelDefs(ValuesIn(defs, order)), id)))
      && forall id, k :: id in t && k in defs && k.ParallelKey? && k.rootId == id ==>
           exists i :: 0 <= i < |t[id].parallels| && t[id].parallels[i].id == defs[k].parallelId &&
             defs[k].steps in PipelineSteps(t[id].parallels[i].pipelines)
  {
    var t := Templates(builders, builderOrder, defs, order);
    var values := ValuesIn(defs, order);
    forall id | id in t
      ensures GroupsOf(t[id].parallels, OfRoot(ParallelDefs(values), id))
    {
      GroupedShape(OfRoot(ParallelDefs(values), id));
    }
    forall id, k | id in t && k in defs && k.ParallelKey? && k.rootId == id
      ensures exists i :: (0 <= i < |t[id].parallels| && t[id].parallels[i].id == defs[k].parallelId &&
                           defs[k].steps in PipelineSteps(t[id].parallels[i].pipelines))
    {
      var ds := OfRoot(ParallelDefs(values), id);
      var g := t[id].parallels;
      GroupedShape(ds);
      var d := defs[k];
      var j :| 0 <= j < |order| && order[j] == k;
      assert values[j] == d;
      assert d in ds;
      StepsWithMember(ds, d);
      assert StepsWith(ds, d.parallelId) != [];
      assert !(forall i :: 0 <= i < |g| ==> g[i].id != d.parallelId);
      var i :| 0 <= i < |g| && g[i].id == d.parallelId;
      assert PipelineSteps(g[i].pipelines) == StepsWith(ds, d.parallelId);
    }
  }

  // ---------------------------------------------------------------------
  // Scanning packages
  // ---------------------------------------------------------------------

  /** A class carrying stage-builder annotations: its name and the ids it builds for. */
  datatype BuilderClass = BuilderClass(name: string, ids: seq<string>)

  /** A class carrying steps annotations: its name and its steps definitions, in order. */
  datatype StepsClass = StepsClass(name: string, defs: seq<StepsDef>)

  /** What the classpath scan finds in one package, class by class. */
  datatype PackageScan = PackageScan(builderClasses: seq<BuilderClass>, stepsClasses: seq<StepsClass>)

  /** The stage-builder scan of the classes of one package, in order. */
  function ScanBuilderClasses(m: map<string, StageBuilderDef>, cs: seq<BuilderClass>): map<string, StageBuilderDef>
  {
    if cs == [] then m
    else PutBuilders(ScanBuilderClasses(m, cs[..|cs| - 1]), cs[|cs| - 1].name, cs[|cs| - 1].ids)
  }

  /** The steps scan of the classes of one package, in order; the first failing class ends it. */
  function ScanStepsClasses(m: map<StepsKey, StepsDef>, cs: seq<StepsClass>): (map<StepsKey, StepsDef>, Option<string>)
  {
    if cs == [] then (m, None)
    else
      var r := ScanStepsClasses(m, cs[..|cs| - 1]);
      if r.1.Some? then r else ScanSteps(r.0, cs[|cs| - 1].name, cs[|cs| - 1].defs, 0)
  }

  /**
   * The scan of the packages in order: each package's stage builders, then
   * its steps; the first failure ends the scan, keeping the maps as reached.
   */
  function ScanPackages(b: map<string, StageBuilderDef>, m: map<StepsKey, StepsDef>, scans: seq<PackageScan>)
    : (map<string, StageBuilderDef>, map<StepsKey, StepsDef>, Option<string>)
  {
    if scans == [] then (b, m, None)
    else
      var r := ScanPackages(b, m, scans[..|scans| - 1]);
      if r.2.Some? then r
      else
        var p := scans[|scans| - 1];
        var s := ScanStepsClasses(r.1, p.stepsClasses);
        (ScanBuilderClasses(r.0, p.builderClasses), s.0, s.1)
  }

  /** Once a package fails, the packages after it change nothing. */
  lemma {:induction false} ScanPackagesStops(b: map<string, StageBuilderDef>, m: map<StepsKey, StepsDef>, scans: seq<PackageScan>, k: nat)
    requires k < |scans| && ScanPackages(b, m, scans[..k + 1]).2.Some?
    ensures ScanPackages(b, m, scans) == ScanPackages(b, m, scans[..k + 1])
  {
    if |scans| > k + 1 {
      var init := scans[..|scans| - 1];
      assert init[..k + 1] == scans[..k + 1];
      ScanPackagesStops(b, m, init, k);
    } else {
      assert scans[..k + 1] == scans;
    }
  }

  /** Scanning classes keeps keys and definitions in agreement. */
  lemma {:induction false} ScanStepsClassesKeysAgree(m: map<StepsKey, StepsDef>, cs: seq<StepsClass>)
    requires KeysAgree(m)
    ensures KeysAgree(ScanStepsClasses(m, cs).0)
  {
    if cs != [] {
      var init := cs[..|cs| - 1];
      ScanStepsClassesKeysAgree(m, init);
      var r := ScanStepsClasses(m, init);
      if r.1.None? {
        ScanStepsKeysAgree(r.0, cs[|cs| - 1].name, cs[|cs| - 1].defs, 0);
      }
    }
  }

  /** Scanning packages keeps keys and definitions in agreement, so root keys hold root definitions. */
  lemma {:induction false} ScanPackagesKeysAgree(b: map<string, StageBuilderDef>, m: map<StepsKey, StepsDef>, scans: seq<PackageScan>)
    requires KeysAgree(m)
    ensures KeysAgree(ScanPackages(b, m, scans).1)
  {
    if scans != [] {
      var init := scans[..|scans| - 1];
      ScanPackagesKeysAgree(b, m, init);
      var r := ScanPackages(b, m, init);
      if r.2.None? {
        ScanStepsClassesKeysAgree(r.1, scans[|scans| - 1].stepsClasses);
      }
    }
  }

  /** The stage-builder scan files every definition under its own id. */
  lemma {:induction false} ScanBuilderClassesAgree(m: map<string, StageBuilderDef>, cs: seq<BuilderClass>)
    requires forall id :: id in m ==> m[id].id == id
    ensures forall id :: id in ScanBuilderClasses(m, cs) ==> ScanBuilderClasses(m, cs)[id].id == id
  {
    if cs != [] {
      var init := cs[..|cs| - 1];
      ScanBuilderClassesAgree(m, init);
      PutBuildersContents(ScanBuilderClasses(m, init), cs[|cs| - 1].name, cs[|cs| - 1].ids);
    }
  }

  // ---------------------------------------------------------------------
  // The builder
  // ---------------------------------------------------------------------

  /** One iteration order of a set, as a hash map's iteration yields its keys. */
  method Enumerate<K(==,!new)>(s: set<K>) returns (ks: seq<K>)
    ensures Enumerates(ks, s)
  {
    ks := [];
    var rest := s;
    while rest != {}
      invariant rest <= s && Graphs.Distinct(ks)
      invariant forall k :: k in ks <==> k in s && k !in rest
      decreases |rest|
    {
      var k :| k in rest;
      ks := ks + [k];
      rest := rest - {k};
    }
  }

  /**
   * The grouping loop: a parallel id met for the first time gets a new,
   * empty parallel definition with that id; then the definition's steps are
   * appended to its group as the next numbered pipeline. The groups, kept by
   * id as in a map, are then listed in the map's iteration order.
   */
  method GroupParallels(ds: seq<StepsDef>) returns (groups: seq<ParallelDef>)
    ensures ListedInSomeOrder(groups, Grouped(ds))
    ensures GroupsOf(groups, ds)
  {
    var byId := [];
    for i := 0 to |ds|
      invariant byId == Grouped(ds[..i])
    {
      assert ds[..i + 1][..i] == ds[..i];
      var d := ds[i];
      ghost var before := byId;
      var k := GroupIndex(byId, d.parallelId);
      if k == |byId| {
        byId := byId + [ParallelDef(d.parallelId, [])];
      }
      var ps := byId[k].pipelines;
      assert k == |before| ==> ps == [] && byId[k].id == d.parallelId;
      byId := byId[k := ParallelDef(byId[k].id, ps + [PipelineDef(PipelineId(byId[k].id, |ps|), d.steps)])];
      if k == |before| {
        assert [] + [PipelineDef(PipelineId(d.parallelId, 0), d.steps)] == [PipelineDef(PipelineId(d.parallelId, 0), d.steps)];
        assert byId == before + [ParallelDef(d.parallelId, [PipelineDef(PipelineId(d.parallelId, 0), d.steps)])];
      }
      assert byId == AddTo(before, d);
    }
    assert ds[..|ds|] == ds;
    var order := Enumerate(GroupIds(byId));
    groups := Arranged(byId, order);
    GroupedShape(ds);
    ArrangedGroupsOf(byId, ds, order);
  }

  /** `pipelines.forEach(...)`: a template per root definition, with its id and steps; fast-fail is on by default. */
  method MakeRootTemplates(roots: seq<StepsDef>) returns (templates: map<string, Spec>)
    ensures templates == RootTemplates(roots)
  {
    templates := map[];
    for i := 0 to |roots|
      invariant templates == RootTemplates(roots[..i])
    {
      assert roots[..i + 1][..i] == roots[..i];
      templates := templates[roots[i].rootId := Spec(roots[i].rootId, true, [], [], roots[i].steps)];
    }
    assert roots[..|roots|] == roots;
  }

  /** The loop over the templates that groups and sets each one's parallels, each in its own map's order. */
  method AddParallels(templates: map<string, Spec>, parallels: seq<StepsDef>) returns (t: map<string, Spec>)
    ensures RearrangedFrom(t, WithParallels(templates, parallels))
  {
    var ids := Enumerate(templates.Keys);
    t := templates;
    for i := 0 to |ids|
      invariant t.Keys == templates.Keys
      invariant forall id :: id in t ==>
        if id in ids[..i] then
          t[id] == templates[id].(parallels := t[id].parallels) && ListedInSomeOrder(t[id].parallels, Grouped(OfRoot(parallels, id)))
        else t[id] == templates[id]
    {
      var groups := GroupParallels(OfRoot(parallels, ids[i]));
      t := t[ids[i] := t[ids[i]].(parallels := groups)];
    }
    assert ids[..|ids|] == ids;
  }

  /** The stage list: one stage definition per stage-builder definition, in iteration order. */
  method MakeStageList(builders: map<string, StageBuilderDef>, order: seq<string>) returns (stages: seq<StageDef>)
    requires forall k :: k in order ==> k in builders
    ensures stages == StageList(builders, order)
  {
    stages := [];
    for i := 0 to |order|
      invariant stages == StageList(builders, order[..i])
    {
      stages := stages + [StageDef(builders[order[i]].id, builders[order[i]].className)];
    }
    assert order[..|order|] == order;
  }

  /** The loop over the templates that gives every one the same stage list. */
  method AddStages(templates: map<string, Spec>, stages: seq<StageDef>) returns (t: map<string, Spec>)
    ensures t == WithStages(templates, stages)
  {
    var ids := Enumerate(templates.Keys);
    t := templates;
    for i := 0 to |ids|
      invariant t.Keys == templates.Keys
      invariant forall id :: id in t ==> t[id] == if id in ids[..i] then templates[id].(stages := stages) else templates[id]
    {
      t := t[ids[i] := t[ids[i]].(stages := stages)];
    }
    assert ids[..|ids|] == ids;
  }

  /** Giving every template the same stage list keeps a rearrangement of the parallel groups one. */
  lemma {:induction false} WithStagesRearranged(t: map<string, Spec>, reference: map<string, Spec>, stages: seq<StageDef>)
    requires RearrangedFrom(t, reference)
    ensures RearrangedFrom(WithStages(t, stages), WithStages(reference, stages))
  {
    var a, b := WithStages(t, stages), WithStages(reference, stages);
    forall id | id in a
      ensures a[id] == b[id].(parallels := a[id].parallels) && ListedInSomeOrder(a[id].parallels, b[id].parallels)
    {
      assert a[id].parallels == t[id].parallels && b[id].parallels == reference[id].parallels;
    }
  }

  /**
   * What `TemplatesParallels` states of the reference assembly holds of any
   * assembly whose groups come out of their maps in another order: each
   * template's parallels group exactly its root's parallel definitions.
   */
  lemma {:induction false} AssembledParallels(builders: map<string, StageBuilderDef>, builderOrder: seq<string>,
                                              defs: map<StepsKey, StepsDef>, order: seq<StepsKey>, t: map<string, Spec>)
    requires forall k :: k in builderOrder ==> k in builders
    requires Enumerates(order, defs.Keys) && KeysAgree(defs)
    requires RearrangedFrom(t, Templates(builders, builderOrder, defs, order))
    ensures forall id :: id in t ==> GroupsOf(t[id].parallels, OfRoot(ParallelDefs(ValuesIn(defs, order)), id))
  {
    var reference := Templates(builders, builderOrder, defs, order);
    TemplatesParallels(builders, builderOrder, defs, order);
    forall id | id in t
      ensures GroupsOf(t[id].parallels, OfRoot(ParallelDefs(ValuesIn(defs, order)), id))
    {
      ListedGroupsOf(t[id].parallels, reference[id].parallels, OfRoot(ParallelDefs(ValuesIn(defs, order)), id));
    }
  }

  /** The scans of the named packages, in order. */
  function Scans(scan: string -> PackageScan, packages: seq<string>): seq<PackageScan>
  {
    seq(|packages|, i requires 0 <= i < |packages| => scan(packages[i]))
  }

  /** The template builder: the packages to scan and the two maps the scans fill. */
  class SpecTemplateBuilder {
    var packages: seq<string>
    var stageBuilderDefs: map<string, StageBuilderDef>
    var pipelineStepsDefs: map<StepsKey, StepsDef>

    /** A missing package list is an empty one. */
    constructor (packages: Option<seq<string>>)
      ensures this.packages == (if packages.Some? then packages.value else [])
      ensures stageBuilderDefs == map[] && pipelineStepsDefs == map[]
    {
      this.packages := if packages.Some? then packages.value else [];
      stageBuilderDefs := map[];
      pipelineStepsDefs := map[];
    }

    /** `scanForStageBuilders`: files each listed id under a definition naming the class. */
    method ScanForStageBuilders(c: BuilderClass)
      modifies this
      ensures stageBuilderDefs == PutBuilders(old(stageBuilderDefs), c.name, c.ids)
      ensures packages == old(packages) && pipelineStepsDefs == old(pipelineStepsDefs)
    {
      for i := 0 to |c.ids|
        invariant stageBuilderDefs == PutBuilders(old(stageBuilderDefs), c.name, c.ids[..i])
        invariant packages == old(packages) && pipelineStepsDefs == old(pipelineStepsDefs)
      {
        assert c.ids[..i + 1][..i] == c.ids[..i];
        stageBuilderDefs := stageBuilderDefs[c.ids[i] := StageBuilderDef(c.ids[i], c.name)];
      }
      assert c.ids[..|c.ids|] == c.ids;
    }

    /**
     * `scanForPipelineSteps`: files each steps definition of the class under
     * its key, counting the class's parallel definitions; a second root
     * definition of a root id fails the scan, with the map as reached.
     */
    method ScanForPipelineSteps(c: StepsClass) returns (err: Option<string>)
      modifies this
      ensures (pipelineStepsDefs, err) == ScanSteps(old(pipelineStepsDefs), c.name, c.defs, 0)
      ensures packages == old(packages) && stageBuilderDefs == old(stageBuilderDefs)
    {
      var parallelIndex := 0;
      var i := 0;
      while i < |c.defs|
        invariant 0 <= i <= |c.defs|
        invariant ScanSteps(old(pipelineStepsDefs), c.name, c.defs, 0) == ScanSteps(pipelineStepsDefs, c.name, c.defs[i..], parallelIndex)
        invariant packages == old(packages) && stageBuilderDefs == old(stageBuilderDefs)
      {
        var d := c.defs[i];
        assert c.defs[i..][0] == d && c.defs[i..][1..] == c.defs[i + 1..];
        if d.parallelId == "" && RootKey(d.rootId) in pipelineStepsDefs {
          return Some(DuplicateRootPrefix + d.rootId);
        }
        var key;
        if d.parallelId == "" {
          key := RootKey(d.rootId);
        } else {
          key := ParallelKey(c.name, d.rootId, parallelIndex);
          parallelIndex := parallelIndex + 1;
        }
        pipelineStepsDefs := pipelineStepsDefs[key := d];
        i := i + 1;
      }
      err := None;
    }

    /** One package: its stage-builder classes, then its steps classes until one fails. */
    method ScanPackage(p: PackageScan) returns (err: Option<string>)
      modifies this
      ensures var s := ScanStepsClasses(old(pipelineStepsDefs), p.stepsClasses);
        && stageBuilderDefs == ScanBuilderClasses(old(stageBuilderDefs), p.builderClasses)
        && pipelineStepsDefs == s.0 && err == s.1
      ensures packages == old(packages)
    {
      for i := 0 to |p.builderClasses|
        invariant stageBuilderDefs == ScanBuilderClasses(old(stageBuilderDefs), p.builderClasses[..i])
        invariant packages == old(packages) && pipelineStepsDefs == old(pipelineStepsDefs)
      {
        assert p.builderClasses[..i + 1][..i] == p.builderClasses[..i];
        ScanForStageBuilders(p.builderClasses[i]);
      }
      assert p.builderClasses[..|p.builderClasses|] == p.builderClasses;
      err := None;
      var i := 0;
      while i < |p.stepsClasses|
        invariant 0 <= i <= |p.stepsClasses|
        invariant err.None? && (pipelineStepsDefs, None) == ScanStepsClasses(old(pipelineStepsDefs), p.stepsClasses[..i])
        invariant packages == old(packages) && stageBuilderDefs == ScanBuilderClasses(old(stageBuilderDefs), p.builderClasses)
      {
        assert p.stepsClasses[..i + 1][..i] == p.stepsClasses[..i];
        err := ScanForPipelineSteps(p.stepsClasses[i]);
        assert (pipelineStepsDefs, err) == ScanStepsClasses(old(pipelineStepsDefs), p.stepsClasses[..i + 1]);
        if err.Some? {
          ScanStepsClassesStops(old(pipelineStepsDefs), p.stepsClasses, i);
          return;
        }
        i := i + 1;
      }
      assert p.stepsClasses[..|p.stepsClasses|] == p.stepsClasses;
    }

    /**
     * `specTemplatesFromAnnotations`: scans every package, then assembles the
     * templates from what the scan found. The maps keep whatever the scan
     * reached; a failed scan assembles nothing.
     */
    method SpecTemplatesFromAnnotations(scan: string -> PackageScan) returns (r: Result<map<string, Spec>, string>)
      modifies this
      ensures packages == old(packages)
      ensures var s := ScanPackages(old(stageBuilderDefs), old(pipelineStepsDefs), Scans(scan, packages));
        && stageBuilderDefs == s.0 && pipelineStepsDefs == s.1
        && (s.2.Some? ==> r == Err(s.2.value))
        && (s.2.None? ==> r.Ok? && (exists bo, ko :: Enumerates(bo, s.0.Keys) && Enumerates(ko, s.1.Keys) && RearrangedFrom(r.value, Templates(s.0, bo, s.1, ko))))
    {
      var scans := Scans(scan, packages);
      var k := 0;
      while k < |packages|
        invariant 0 <= k <= |packages| && packages == old(packages) && scans == Scans(scan, packages)
        invariant (stageBuilderDefs, pipelineStepsDefs, None) == ScanPackages(old(stageBuilderDefs), old(pipelineStepsDefs), scans[..k])
      {
        assert scans[..k + 1][..k] == scans[..k];
        var err := ScanPackage(scan(packages[k]));
        if err.Some? {
          ScanPackagesStops(old(stageBuilderDefs), old(pipelineStepsDefs), scans, k);
          return Err(err.value);
        }
        k := k + 1;
      }
      assert scans[..|packages|] == scans;
      var templates := Assemble();
      r := Ok(templates);
    }

    /**
     * The assembly half: root templates, then their parallels, then the
     * shared stage list. Every map involved is read in one of its iteration
     * orders, the parallel groups of each template included.
     */
    method Assemble() returns (t: map<string, Spec>)
      ensures exists bo, ko :: (Enumerates(bo, stageBuilderDefs.Keys) && Enumerates(ko, pipelineStepsDefs.Keys) &&
        RearrangedFrom(t, Templates(stageBuilderDefs, bo, pipelineStepsDefs, ko)))
    {
      var builders, defs := stageBuilderDefs, pipelineStepsDefs;
      var ko := Enumerate(defs.Keys);
      var values := ValuesIn(defs, ko);
      var roots := MakeRootTemplates(RootDefs(values));
      var withParallels := AddParallels(roots, ParallelDefs(values));
      var bo := Enumerate(builders.Keys);
      var stages := MakeStageList(builders, bo);
      t := AddStages(withParallels, stages);
      WithStagesRearranged(withParallels, WithParallels(roots, ParallelDefs(values)), stages);
      assert RearrangedFrom(t, Templates(builders, bo, defs, ko));
    }
  }

  /** Once a class fails, the classes after it change nothing. */
  lemma {:induction false} ScanStepsClassesStops(m: map<StepsKey, StepsDef>, cs: seq<StepsClass>, k: nat)
    requires k < |cs| && ScanStepsClasses(m, cs[..k + 1]).1.Some?
    ensures ScanStepsClasses(m, cs) == ScanStepsClasses(m, cs[..k + 1])
  {
    if |cs| > k + 1 {
      var init := cs[..|cs| - 1];
      assert init[..k + 1] == cs[..k + 1];
      ScanStepsClassesStops(m, init, k);
    } else {
      assert cs[..k + 1] == cs;
    }
  }
}
