/** A patch: a named, typed list of block faces, possibly cyclic with a
    named partner patch. */
module Patches {
  import opened Optional

  /** One patch face: the block (by its index), the face label of that block
      and the face's key. */
  datatype PatchFace = PatchFace(block: nat, blockFaceLabel: int, blockKey: string)

  /** `faceIndices` maps a face key to the slot of that face in `faces`. */
  datatype Patch = Patch(
    name: string,
    patchType: string,
    cyclicPartner: string,
    faces: seq<PatchFace>,
    faceIndices: map<string, int>)

  /** Every face key points at a stored face. */
  predicate Valid(p: Patch) {
    forall key :: key in p.faceIndices ==> 0 <= p.faceIndices[key] < |p.faces|
  }

  /** The constructor, with the defaults "PATCH" and "patch"; the patch
      starts without faces and without a partner. */
  function NewPatch(name: string := "PATCH", patchType: string := "patch"): (p: Patch)
    ensures p.name == name && p.patchType == patchType
    ensures Size(p) == 0 && Valid(p)
    ensures forall key :: !Found(p, key)
  {
    Patch(name, patchType, "", [], map[])
  }

  /** `isCyclic`: the type is "cyclic". */
  predicate IsCyclic(p: Patch) {
    p.patchType == "cyclic"
  }

  /** `setCyclic`: turns the patch cyclic with the given partner. */
  function SetCyclic(p: Patch, partner: string): (r: Patch)
    ensures IsCyclic(r) && r.cyclicPartner == partner
    ensures r.name == p.name && r.faces == p.faces && r.faceIndices == p.faceIndices
    ensures Valid(p) ==> Valid(r)
  {
    p.(patchType := "cyclic", cyclicPartner := partner)
  }

  /** `size`: the number of stored faces; in a valid patch every face key
      points at a slot below it. */
  function Size(p: Patch): (n: nat)
    ensures Valid(p) ==> forall key :: Found(p, key) ==> 0 <= p.faceIndices[key] < n
  {
    |p.faces|
  }

  /** `found`: the key is in the face index. */
  predicate Found(p: Patch, key: string) {
    key in p.faceIndices
  }

  /** `getFace`: the face stored under the key; `None` stands for the
      hash table's failed lookup of a missing key. */
  function GetFace(p: Patch, key: string): (r: Option<PatchFace>)
    requires Valid(p)
    ensures r.Some? <==> Found(p, key)
    ensures r.Some? ==> r.value in p.faces
  {
    if key in p.faceIndices then Some(p.faces[p.faceIndices[key]]) else None
  }

  /** A patch is cyclic exactly when its type says so; a default patch is
      not, and neither is a patch made with any type other than "cyclic". */
  lemma DefaultPatchNotCyclic(name: string, patchType: string)
    ensures !IsCyclic(NewPatch())
    ensures NewPatch().name == "PATCH" && NewPatch().patchType == "patch"
    ensures IsCyclic(NewPatch(name, patchType)) <==> patchType == "cyclic"
  {
  }

  /** Setting the partner twice keeps the last one; the faces never change. */
  lemma SetCyclicTwice(p: Patch, a: string, b: string)
    ensures SetCyclic(SetCyclic(p, a), b) == SetCyclic(p, b)
    ensures Size(SetCyclic(p, a)) == Size(p)
    ensures forall key :: Found(SetCyclic(p, a), key) <==> Found(p, key)
  {
  }
}
