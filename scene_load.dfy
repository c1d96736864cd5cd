/** Loading the building scene: classifying the nodes of the loaded asset
    (meshes are collected and marked, the photo-sphere camera rig is picked
    and aimed at its target) and decoding the first animation clip's flat
    keyframe arrays into per-frame positions and rotations.

    Numeric components are of an opaque type `S`; the model never computes
    with them. A read past the end of a value array is `None`, JavaScript's
    `undefined`, which the `Vector3` and `Quaternion` constructors replace
    by their defaults: 0, and 1 for the `w` of a quaternion. */
module SceneLoad {
  import opened Wrappers
  import opened Strings

  /** A mesh whose name contains this is locked background geometry. */
  const LockMarker: string := "SUR"
  /** A camera whose name contains this is the photo-sphere rig. */
  const RigMarker: string := "360"
  /** The child of the rig whose name contains this is its look-at target. */
  const TargetMarker: string := "Target"
  const LockedMaterial: int := 0x000000
  const PlainMaterial: int := 0xffffff
  const MeshColor: int := 0x00ff00

  datatype Vec3<S> = Vec3(x: S, y: S, z: S)
  datatype Quat<S> = Quat(x: S, y: S, z: S, w: S)

  /** The `userData` fields the viewer reads; any other field is ignored. */
  datatype UserData<S> = UserData(locked: bool, parent: Option<string>, id: Option<string>, lookAt: Option<Vec3<S>>)

  /** `{ locked: true }` */
  function LockedData<S>(): UserData<S> {
    UserData(true, None, None, None)
  }

  /** `{ lookAt: p }` */
  function LookAtData<S>(p: Vec3<S>): UserData<S> {
    UserData(false, None, None, Some(p))
  }

  /** What the rig set-up reads of a direct child: its name and position. */
  datatype Child<S> = Child(name: string, position: Vec3<S>)

  /** A node of the loaded scene graph. `isMesh` and `isCamera` are the
      flags three.js sets on meshes and cameras; `fov` is `None` when the
      field of view is missing or zero; `material` and `color` are the
      material colour and the extra `color` field the loader assigns. */
  datatype Node<S> = Node(
    uuid: string,
    name: string,
    isMesh: bool,
    isCamera: bool,
    userData: UserData<S>,
    position: Vec3<S>,
    quaternion: Quat<S>,
    fov: Option<S>,
    children: seq<Child<S>>,
    material: Option<int>,
    color: Option<int>)

  /** `_isMesh` */
  predicate IsMesh<S>(n: Node<S>) {
    n.isMesh
  }

  /** `_isCamera` */
  predicate IsCamera<S>(n: Node<S>) {
    n.isCamera
  }

  /** The traversal callback's treatment of a mesh: a locked mesh gets a
      black material and `userData` replaced by `{ locked: true }`; any
      other mesh gets a white material and the colour green, and keeps its
      `userData`. */
  function MarkMesh<S>(n: Node<S>): (m: Node<S>)
    ensures m.uuid == n.uuid && m.name == n.name && m.isMesh == n.isMesh && m.isCamera == n.isCamera
    ensures m.position == n.position && m.quaternion == n.quaternion && m.fov == n.fov && m.children == n.children
    ensures Contains(n.name, LockMarker) ==>
      m.userData == LockedData() && m.material == Some(LockedMaterial) && m.color == n.color
    ensures !Contains(n.name, LockMarker) ==>
      m.userData == n.userData && m.material == Some(PlainMaterial) && m.color == Some(MeshColor)
  {
    if Contains(n.name, LockMarker) then
      n.(material := Some(LockedMaterial), userData := LockedData())
    else
      n.(material := Some(PlainMaterial), color := Some(MeshColor))
  }

  /** The node the traversal takes as the photo-sphere camera: not a mesh,
      a camera, and named with the rig marker. */
  predicate IsRig<S>(n: Node<S>) {
    !IsMesh(n) && IsCamera(n) && Contains(n.name, RigMarker)
  }

  /** `children.find(c => c.name.includes('Target'))` */
  function FindTarget<S>(cs: seq<Child<S>>): (r: Option<Child<S>>)
    ensures r.None? <==> forall k :: 0 <= k < |cs| ==> !Contains(cs[k].name, TargetMarker)
    ensures r.Some? ==> exists k :: 0 <= k < |cs| && cs[k] == r.value && Contains(cs[k].name, TargetMarker)
                           && forall j :: 0 <= j < k ==> !Contains(cs[j].name, TargetMarker)
  {
    if cs == [] then None
    else if Contains(cs[0].name, TargetMarker) then Some(cs[0])
    else
      var r := FindTarget(cs[1..]);
      assert forall k :: 1 <= k < |cs| ==> cs[k] == cs[1..][k - 1];
      r
  }

  /** The rig as the traversal leaves it: when it has a target child, its
      `userData` becomes `{ lookAt: <target position> }`; otherwise it is
      untouched. */
  function SetUpRig<S>(n: Node<S>): (m: Node<S>)
    ensures m.uuid == n.uuid && m.name == n.name && m.isMesh == n.isMesh && m.isCamera == n.isCamera
    ensures m.position == n.position && m.quaternion == n.quaternion && m.fov == n.fov
    ensures m.children == n.children && m.material == n.material && m.color == n.color
    ensures (forall k :: 0 <= k < |n.children| ==> !Contains(n.children[k].name, TargetMarker)) ==>
      m.userData == n.userData
    ensures forall k ::
      (0 <= k < |n.children| && Contains(n.children[k].name, TargetMarker)
       && forall j :: 0 <= j < k ==> !Contains(n.children[j].name, TargetMarker))
      ==> m.userData == LookAtData(n.children[k].position)
  {
    match FindTarget(n.children)
    case Some(t) => n.(userData := LookAtData(t.position))
    case None => n
  }

  /** The meshes collected from `nodes` (in traversal order), as marked. */
  function Meshes<S>(nodes: seq<Node<S>>): (r: seq<Node<S>>)
    ensures |r| <= |nodes|
    ensures (forall k :: 0 <= k < |nodes| ==> IsMesh(nodes[k])) ==> |r| == |nodes|
    ensures (forall k :: 0 <= k < |nodes| ==> !IsMesh(nodes[k])) ==> r == []
  {
    if nodes == [] then []
    else
      var last := nodes[|nodes| - 1];
      Meshes(nodes[..|nodes| - 1]) + (if IsMesh(last) then [MarkMesh(last)] else [])
  }

  /** The camera the traversal ends with: the LAST rig in traversal order,
      set up; `None` when there is no rig. */
  function LastRig<S>(nodes: seq<Node<S>>): (r: Option<Node<S>>)
    ensures r.None? <==> forall k :: 0 <= k < |nodes| ==> !IsRig(nodes[k])
    ensures r.Some? ==> exists k :: 0 <= k < |nodes| && IsRig(nodes[k]) && r.value == SetUpRig(nodes[k])
                           && forall j :: k < j < |nodes| ==> !IsRig(nodes[j])
  {
    if nodes == [] then None
    else if IsRig(nodes[|nodes| - 1]) then Some(SetUpRig(nodes[|nodes| - 1]))
    else
      var init := nodes[..|nodes| - 1];
      var r := LastRig(init);
      assert forall k :: 0 <= k < |init| ==> init[k] == nodes[k];
      r
  }

  /** Collecting meshes distributes over concatenation of traversals. */
  lemma {:induction false} MeshesAppend<S>(a: seq<Node<S>>, b: seq<Node<S>>)
    ensures Meshes(a + b) == Meshes(a) + Meshes(b)
    decreases |b|
  {
    if b == [] {
      assert a + b == a;
    } else {
      var init := b[..|b| - 1];
      assert (a + b)[..|a + b| - 1] == a + init;
      MeshesAppend(a, init);
    }
  }

  /** Every mesh node is collected, and it lands right after the meshes
      that precede it in traversal order. */
  lemma MeshesAt<S>(nodes: seq<Node<S>>, k: int)
    requires 0 <= k < |nodes| && IsMesh(nodes[k])
    ensures |Meshes(nodes[..k])| < |Meshes(nodes)|
    ensures Meshes(nodes)[|Meshes(nodes[..k])|] == MarkMesh(nodes[k])
  {
    assert nodes == nodes[..k] + [nodes[k]] + nodes[k + 1..];
    MeshesAppend(nodes[..k] + [nodes[k]], nodes[k + 1..]);
    MeshesAppend(nodes[..k], [nodes[k]]);
    assert Meshes([nodes[k]]) == Meshes([]) + [MarkMesh(nodes[k])] by {
      assert [nodes[k]][..0] == [];
    }
  }

  /** Only mesh nodes are collected, each marked as the traversal marks it:
      a locked one carries exactly `{ locked: true }`, any other one the
      colour green. */
  lemma {:induction false} MeshesOnly<S>(nodes: seq<Node<S>>)
    ensures forall m :: m in Meshes(nodes) ==>
      exists k :: 0 <= k < |nodes| && IsMesh(nodes[k]) && m == MarkMesh(nodes[k])
    ensures forall m :: m in Meshes(nodes) ==> m.isMesh
    ensures forall m :: m in Meshes(nodes) && Contains(m.name, LockMarker) ==> m.userData == LockedData()
    ensures forall m :: m in Meshes(nodes) && !Contains(m.name, LockMarker) ==> m.color == Some(MeshColor)
    decreases |nodes|
  {
    if nodes != [] {
      var init := nodes[..|nodes| - 1];
      MeshesOnly(init);
      assert forall k :: 0 <= k < |init| ==> init[k] == nodes[k];
    }
  }

  /** `traverse`: visits the nodes in traversal order; a mesh is marked and
      appended to the model's children, a rig overwrites the camera. */
  method Traverse<S>(nodes: seq<Node<S>>) returns (children: seq<Node<S>>, camera: Option<Node<S>>)
    ensures children == Meshes(nodes)
    ensures camera == LastRig(nodes)
  {
    children := [];
    camera := None;
    var i := 0;
    while i < |nodes|
      invariant 0 <= i <= |nodes|
      invariant children == Meshes(nodes[..i])
      invariant camera == LastRig(nodes[..i])
    {
      var child := nodes[i];
      assert nodes[..i + 1][..i] == nodes[..i];
      if IsMesh(child) {
        children := children + [MarkMesh(child)];
      } else if IsCamera(child) && Contains(child.name, RigMarker) {
        var target := FindTarget(child.children);
        camera := if target.Some? then Some(child.(userData := LookAtData(target.value.position))) else Some(child);
      }
      i := i + 1;
    }
    assert nodes[..i] == nodes;
  }

  /** A positive value size (components per keyframe). */
  type Stride = n: int | n > 0 witness 1

  /** A keyframe track: its flat value array and `getValueSize()`. */
  datatype Track<S> = Track(values: seq<S>, valueSize: Stride)
  datatype Clip<S> = Clip(tracks: seq<Track<S>>)

  datatype AnimationData<S> = AnimationData(positions: seq<Vec3<S>>, rotations: seq<Quat<S>>)

  /** Why loading the animation fails: there is no clip (`animations[0]`
      is undefined) or the clip has fewer than two tracks. Both are
      `TypeError`s in the loader. */
  datatype LoadError = NoClip | MissingTrack

  /** `values[i]`, `undefined` when out of range. */
  function At<S>(values: seq<S>, i: int): (r: Option<S>)
    ensures r.Some? <==> 0 <= i < |values|
    ensures r.Some? ==> r.value == values[i]
  {
    if 0 <= i < |values| then Some(values[i]) else None
  }

  /** The number of keyframes the stepping loop produces: one per start
      index 0, s, 2s, ... below `len`, that is, len / s rounded up. */
  function KeyCount(len: nat, s: Stride): nat {
    (len + s - 1) / s
  }

  /** `new Vector3(v[i], v[i + 1], v[i + 2])`: a missing component is 0. */
  function VectorAt<S>(v: seq<S>, i: int, zero: S): (r: Vec3<S>)
    ensures 0 <= i && i + 2 < |v| ==> r == Vec3(v[i], v[i + 1], v[i + 2])
    ensures 0 <= i < |v| ==> r.x == v[i]
    ensures 0 <= i + 1 < |v| ==> r.y == v[i + 1]
    ensures 0 <= i + 2 < |v| ==> r.z == v[i + 2]
    ensures !(0 <= i < |v|) ==> r.x == zero
    ensures !(0 <= i + 1 < |v|) ==> r.y == zero
    ensures !(0 <= i + 2 < |v|) ==> r.z == zero
  {
    Vec3(At(v, i).GetOr(zero), At(v, i + 1).GetOr(zero), At(v, i + 2).GetOr(zero))
  }

  /** `new Quaternion(q[i], q[i + 1], q[i + 2], q[i + 3])`: a missing x, y
      or z is 0 and a missing w is 1. */
  function QuaternionAt<S>(q: seq<S>, i: int, zero: S, one: S): (r: Quat<S>)
    ensures 0 <= i && i + 3 < |q| ==> r == Quat(q[i], q[i + 1], q[i + 2], q[i + 3])
    ensures 0 <= i < |q| ==> r.x == q[i]
    ensures 0 <= i + 1 < |q| ==> r.y == q[i + 1]
    ensures 0 <= i + 2 < |q| ==> r.z == q[i + 2]
    ensures 0 <= i + 3 < |q| ==> r.w == q[i + 3]
    ensures !(0 <= i < |q|) ==> r.x == zero
    ensures !(0 <= i + 1 < |q|) ==> r.y == zero
    ensures !(0 <= i + 2 < |q|) ==> r.z == zero
    ensures !(0 <= i + 3 < |q|) ==> r.w == one
  {
    Quat(At(q, i).GetOr(zero), At(q, i + 1).GetOr(zero), At(q, i + 2).GetOr(zero), At(q, i + 3).GetOr(one))
  }

  /** `positions` holds one vector per keyframe of `track`, in order, the
      j-th built from the three values starting at j * valueSize. */
  ghost predicate DecodedPositions<S>(track: Track<S>, zero: S, positions: seq<Vec3<S>>) {
    var v, s := track.values, track.valueSize;
    && |positions| == KeyCount(|v|, s)
    && forall j :: 0 <= j < |positions| ==> positions[j] == VectorAt(v, j * s, zero)
  }

  /** `rotations` holds one quaternion per keyframe of `track`, in order,
      the j-th built from the four values starting at j * valueSize. */
  ghost predicate DecodedRotations<S>(track: Track<S>, zero: S, one: S, rotations: seq<Quat<S>>) {
    var q, s := track.values, track.valueSize;
    && |rotations| == KeyCount(|q|, s)
    && forall j :: 0 <= j < |rotations| ==> rotations[j] == QuaternionAt(q, j * s, zero, one)
  }

  lemma DivUnique(a: int, s: int, k: int)
    requires s > 0 && k * s <= a < k * s + s
    ensures a / s == k
  {
    var d := a / s;
    assert s * (d - k) == (a - k * s) - a % s;
    PositiveMultiple(d - k, s);
    PositiveMultiple(k - d, s);
  }

  lemma PositiveMultiple(x: int, s: int)
    requires s > 0
    ensures x >= 1 ==> s * x >= s
  {
  }

  /** A stepping loop that stops after `k` steps is done exactly when
      `k` is the key count. */
  lemma StepsAreKeyCount(len: nat, s: Stride, k: nat)
    requires len <= k * s
    requires k == 0 || (k - 1) * s < len
    ensures k == KeyCount(len, s)
  {
    if k == 0 {
      DivUnique(len + s - 1, s, 0);
    } else {
      assert (k - 1) * s == k * s - s;
      DivUnique(len + s - 1, s, k);
    }
  }

  /** `_extractAnimations`: positions from `tracks[0]` and rotations from
      `tracks[1]` of the FIRST clip only, each stepping through its value
      array by the track's value size. `zero` and `one` are the numbers
      0 and 1 of the component type. */
  method ExtractAnimations<S>(animations: seq<Clip<S>>, zero: S, one: S) returns (r: Result<AnimationData<S>, LoadError>)
    ensures animations == [] ==> r == Failure(NoClip)
    ensures animations != [] && |animations[0].tracks| < 2 ==> r == Failure(MissingTrack)
    ensures animations != [] && |animations[0].tracks| >= 2 ==>
      && r.Success?
      && DecodedPositions(animations[0].tracks[0], zero, r.value.positions)
      && DecodedRotations(animations[0].tracks[1], zero, one, r.value.rotations)
  {
    if animations == [] {
      return Failure(NoClip);
    }
    var clip := animations[0];
    if |clip.tracks| < 2 {
      return Failure(MissingTrack);
    }
    var vTrack, qTrack := clip.tracks[0], clip.tracks[1];
    var vs, qs := vTrack.valueSize, qTrack.valueSize;
    var v, q := vTrack.values, qTrack.values;

    var positions: seq<Vec3<S>> := [];
    var i := 0;
    while i < |v|
      invariant i == |positions| * vs
      invariant |positions| > 0 ==> (|positions| - 1) * vs < |v|
      invariant forall j :: 0 <= j < |positions| ==>
        positions[j] == VectorAt(v, j * vs, zero)
    {
      positions := positions + [VectorAt(v, i, zero)];
      i := i + vs;
    }
    StepsAreKeyCount(|v|, vs, |positions|);

    var rotations: seq<Quat<S>> := [];
    i := 0;
    while i < |q|
      invariant i == |rotations| * qs
      invariant |rotations| > 0 ==> (|rotations| - 1) * qs < |q|
      invariant forall j :: 0 <= j < |rotations| ==>
        rotations[j] == QuaternionAt(q, j * qs, zero, one)
    {
      rotations := rotations + [QuaternionAt(q, i, zero, one)];
      i := i + qs;
    }
    StepsAreKeyCount(|q|, qs, |rotations|);

    r := Success(AnimationData(positions, rotations));
  }

  /** What `useLoadScene` hands back: the collected meshes, the rig and the
      decoded animation. */
  datatype Scene<S> = Scene(model: seq<Node<S>>, camera: Option<Node<S>>, animation: AnimationData<S>)

  /** The loader's one-time pass: traverse, then extract the animation; a
      failed extraction fails the whole load. */
  method LoadScene<S>(nodes: seq<Node<S>>, animations: seq<Clip<S>>, zero: S, one: S) returns (r: Result<Scene<S>, LoadError>)
    ensures r.Success? <==> animations != [] && |animations[0].tracks| >= 2
    ensures r.Failure? ==> r.error == if animations == [] then NoClip else MissingTrack
    ensures r.Success? ==>
      && r.value.model == Meshes(nodes)
      && r.value.camera == LastRig(nodes)
      && DecodedPositions(animations[0].tracks[0], zero, r.value.animation.positions)
      && DecodedRotations(animations[0].tracks[1], zero, one, r.value.animation.rotations)
  {
    var children, camera := Traverse(nodes);
    var animation := ExtractAnimations(animations, zero, one);
    match animation
    case Failure(e) => r := Failure(e);
    case Success(a) => r := Success(Scene(children, camera, a));
  }
}
