/** The inline part of the block manager: its patch registry, the per
    direction counts, the box-walk bound and the default topology hooks. */
module BlockManagers {
  import opened Optional
  import opened Globals
  import opened Patches
  import opened Splines

  /** Direction labels of a block (`BasicBlock::X`, `BasicBlock::Y`). */
  const X: nat := 0
  const Y: nat := 1

  /** `patchIndices` maps a patch name to its slot in `patches`;
      `topologyCalculated` is the flag reported by `topologyReady`. */
  datatype Manager = Manager(
    points: seq<Vector>,
    splines: map<string, Spline>,
    patches: seq<Patch>,
    patchIndices: map<string, int>,
    resolution: real,
    blockNrs: seq<int>,
    cellNrs: seq<int>,
    splinePointNrs: seq<int>,
    topologyCalculated: bool)

  /** Every registered patch name points at a patch slot. */
  predicate Valid(m: Manager) {
    forall name :: name in m.patchIndices ==> 0 <= m.patchIndices[name] < |m.patches|
  }

  /** The constructor's defaults: resolution 0.001 and 5 blocks and 5 cells
      in each of the 3 directions. */
  function NewManager(
    resolution: real := 0.001,
    blockNrs: seq<int> := [5, 5, 5],
    cellNrs: seq<int> := [5, 5, 5]): (m: Manager)
    ensures m.resolution == resolution && m.blockNrs == blockNrs && m.cellNrs == cellNrs
    ensures Valid(m) && m.patchIndices == map[]
  {
    Manager([], map[], [], map[], resolution, blockNrs, cellNrs, [], false)
  }

  /** With no arguments the constructor gives 0.001 and 5 blocks and 5
      cells per direction. */
  lemma NewManagerDefaults(dir: nat)
    requires dir < 3
    ensures NewManager().resolution == 0.001
    ensures GetBlockNr(NewManager(), dir) == 5 && GetCellNr(NewManager(), dir) == 5
  {
  }

  /** `getCellNr`. */
  function GetCellNr(m: Manager, i: nat): int
    requires i < |m.cellNrs|
  {
    m.cellNrs[i]
  }

  /** `getBlockNr`. */
  function GetBlockNr(m: Manager, i: nat): int
    requires i < |m.blockNrs|
  {
    m.blockNrs[i]
  }

  /** `getSplinePointNr`. */
  function GetSplinePointNr(m: Manager, i: nat): int
    requires i < |m.splinePointNrs|
  {
    m.splinePointNrs[i]
  }

  /** `topologyReady`. */
  predicate TopologyReady(m: Manager) {
    m.topologyCalculated
  }

  /** `getPatch(name)`: the patch in the slot registered for the name;
      `None` stands for the hash table's failed lookup of an unknown name. */
  function GetPatch(m: Manager, name: string): (r: Option<Patch>)
    requires Valid(m)
    ensures r.Some? <==> name in m.patchIndices
    ensures r.Some? ==> r.value in m.patches
  {
    if name in m.patchIndices then Some(m.patches[m.patchIndices[name]]) else None
  }

  /** `addPatch(i, name, type)`: a fresh patch in slot `i`, registered under
      its name. Only slot `i` and the entry for `name` change. */
  function AddPatch(m: Manager, i: nat, name: string, patchType: string := "patch"): (r: Manager)
    requires i < |m.patches|
    ensures |r.patches| == |m.patches|
    ensures r.patches[i] == NewPatch(name, patchType)
    ensures forall k :: 0 <= k < |m.patches| && k != i ==> r.patches[k] == m.patches[k]
    ensures r.patchIndices.Keys == m.patchIndices.Keys + {name}
    ensures name in r.patchIndices && r.patchIndices[name] == i
    ensures forall n :: n in m.patchIndices && n != name ==> r.patchIndices[n] == m.patchIndices[n]
    ensures Valid(m) ==> Valid(r)
    ensures r.points == m.points && r.splines == m.splines && r.blockNrs == m.blockNrs
    ensures r.cellNrs == m.cellNrs && r.topologyCalculated == m.topologyCalculated
    ensures r.resolution == m.resolution && r.splinePointNrs == m.splinePointNrs
  {
    m.(patches := m.patches[i := NewPatch(name, patchType)],
       patchIndices := m.patchIndices[name := i])
  }

  /** After `addPatch(i, name, type)`, `getPatch(name)` is a patch of that
      name and type, and it is the one in slot `i`. Any other name keeps
      its patch unless it was registered to slot `i` too, in which case it
      now sees the new patch. */
  lemma GetPatchAfterAddPatch(m: Manager, i: nat, name: string, patchType: string, other: string)
    requires Valid(m) && i < |m.patches|
    ensures GetPatch(AddPatch(m, i, name, patchType), name) == Some(NewPatch(name, patchType))
    ensures GetPatch(AddPatch(m, i, name, patchType), name).value.name == name
    ensures GetPatch(AddPatch(m, i, name, patchType), name).value.patchType == patchType
    ensures other != name && other in m.patchIndices && m.patchIndices[other] != i ==>
      GetPatch(AddPatch(m, i, name, patchType), other) == GetPatch(m, other)
    ensures other != name && other in m.patchIndices && m.patchIndices[other] == i ==>
      GetPatch(AddPatch(m, i, name, patchType), other) == Some(NewPatch(name, patchType))
    ensures other != name && other !in m.patchIndices ==>
      GetPatch(AddPatch(m, i, name, patchType), other) == None
  {
  }

  // ---------------------------------------------------------------------
  // box walk
  // ---------------------------------------------------------------------

  /** One unit step of a walk along the blocks of the base. */
  datatype Step = East | North | West | South

  /** The walk once around the border of an `nx` x `ny` box of blocks:
      east along the bottom, north, west along the top, then south. */
  function BoxWalk(nx: nat, ny: nat): seq<Step> {
    seq(nx, _ => East) + seq(ny, _ => North) + seq(nx, _ => West) + seq(ny, _ => South)
  }

  /** `walkBoxMaximum`: the number of steps once around the base box. */
  function WalkBoxMaximum(m: Manager): (r: int)
    requires |m.blockNrs| >= 2
    ensures m.blockNrs[X] >= 0 && m.blockNrs[Y] >= 0 ==> r == |BoxWalk(m.blockNrs[X], m.blockNrs[Y])|
  {
    2 * (m.blockNrs[X] + m.blockNrs[Y])
  }

  // ---------------------------------------------------------------------
  // default hooks
  // ---------------------------------------------------------------------

  /** The default `check`: accepts any manager at any tolerance. */
  predicate Check(m: Manager, tolerance: real := 0.000001) {
    true
  }

  /** The default `calcTopology`: runs the neighbour search, whose body is
      not part of this model and is passed in, and reports success. */
  function CalcTopology(m: Manager, findAllNeighbors: Manager -> Manager): (r: (Manager, bool))
    ensures r.1
    ensures r.0 == findAllNeighbors(m)
  {
    (findAllNeighbors(m), true)
  }
}
