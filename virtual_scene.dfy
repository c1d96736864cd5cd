/** The 3D scene component: which camera and animation drive the view, how
    the view camera is placed on every rendered frame, which meshes are
    visible, clickable and highlighted, and how hovering over the scene
    picks the highlighted mesh.

    The loaded cameras and animations are per-entity maps handed in from
    outside (possibly absent); the raycast is external and arrives as its
    hit list, nearest first. */
module VirtualScene {
  import opened Wrappers
  import opened Strings
  import opened SceneLoad

  /** The entity whose camera is used when no entity is active. */
  const DefaultEntity: string := "A"
  /** The material colour of every mesh that is not highlighted. */
  const Unlit: int := 0x000000

  /** `activeEntityId ?? 'A'` */
  function EntityKey(activeEntityId: Option<string>): string {
    activeEntityId.GetOr(DefaultEntity)
  }

  /** `loaded?.[activeEntityId ?? 'A']`: the entry of the active entity, or
      of entity "A" when none is active; `None` when the map is absent or
      has no such entry. */
  function ActiveEntry<V>(loaded: Option<map<string, V>>, activeEntityId: Option<string>): (r: Option<V>)
    ensures r.Some? <==> loaded.Some? && EntityKey(activeEntityId) in loaded.value
    ensures activeEntityId.None? && r.Some? ==> r.value == loaded.value[DefaultEntity]
    ensures activeEntityId.Some? && r.Some? ==> r.value == loaded.value[activeEntityId.value]
  {
    match loaded
    case None => None
    case Some(m) =>
      var key := EntityKey(activeEntityId);
      if key in m then Some(m[key]) else None
  }

  // ---------------------------------------------------------------------
  // Picking

  /** A raycast hit: the hit object's uuid, its `visible` flag and its
      `userData.locked`. */
  datatype Hit = Hit(uuid: string, visible: bool, locked: bool)

  /** `hits[k]` is the first visible hit. */
  ghost predicate FirstVisibleAt(hits: seq<Hit>, k: int) {
    0 <= k < |hits| && hits[k].visible && forall j :: 0 <= j < k ==> !hits[j].visible
  }

  /** `hits.filter(h => h.object.visible)` */
  function VisibleHits(hits: seq<Hit>): (r: seq<Hit>)
    ensures forall h :: h in r <==> h in hits && h.visible
    ensures r == [] <==> forall k :: 0 <= k < |hits| ==> !hits[k].visible
    ensures r != [] ==> exists k :: FirstVisibleAt(hits, k) && r[0] == hits[k]
  {
    if hits == [] then []
    else
      var rest := VisibleHits(hits[1..]);
      assert forall k :: 1 <= k < |hits| ==> hits[k] == hits[1..][k - 1];
      if hits[0].visible then
        assert FirstVisibleAt(hits, 0);
        [hits[0]] + rest
      else
        assert rest != [] ==> exists k :: FirstVisibleAt(hits, k) && rest[0] == hits[k] by {
          if rest != [] {
            var k :| FirstVisibleAt(hits[1..], k) && rest[0] == hits[1..][k];
            assert FirstVisibleAt(hits, k + 1);
          }
        }
        rest
  }

  /** `handleMouseMove`'s decision: the new highlighted uuid given the
      current one and the raycast hits. Only the first visible hit counts:
      an unlocked one becomes highlighted, a locked one clears the
      highlight, and no visible hit clears it too. */
  function Pick(activeId: Option<string>, hits: seq<Hit>): (r: Option<string>)
    ensures (forall k :: 0 <= k < |hits| ==> !hits[k].visible) ==> r == None
    ensures forall k :: FirstVisibleAt(hits, k) && hits[k].locked ==> r == None
    ensures forall k :: FirstVisibleAt(hits, k) && !hits[k].locked ==> r == Some(hits[k].uuid)
  {
    var intersects := VisibleHits(hits);
    if |intersects| > 0 then
      var first := intersects[0];
      assert forall k, k' :: FirstVisibleAt(hits, k) && FirstVisibleAt(hits, k') ==> k == k';
      if activeId != Some(first.uuid) && !first.locked then Some(first.uuid)
      else if first.locked then None
      else activeId
    else
      None
  }

  /** The highlight after a hover never depends on the highlight before:
      hovering the already highlighted mesh keeps it, which is what
      selecting it afresh would give. */
  lemma PickIgnoresCurrent(a: Option<string>, b: Option<string>, hits: seq<Hit>)
    ensures Pick(a, hits) == Pick(b, hits)
  {
  }

  /** The hover state of the scene: the uuid of the highlighted mesh. */
  class Picker {
    var activeId: Option<string>

    constructor ()
      ensures activeId == None
    {
      activeId := None;
    }

    /** `handleMouseMove`, run on pointer-over and pointer-out. */
    method HandleMouseMove(hits: seq<Hit>)
      modifies this
      ensures activeId == Pick(old(activeId), hits)
    {
      var intersects := VisibleHits(hits);
      if |intersects| > 0 {
        var first := intersects[0];
        if activeId != Some(first.uuid) && !first.locked {
          activeId := Some(first.uuid);
        } else if first.locked {
          activeId := None;
        }
      } else {
        activeId := None;
      }
    }
  }

  // ---------------------------------------------------------------------
  // Rendering the meshes

  /** The click handler of a rendered mesh: none, or one that reports the
      mesh's `_ID` (which may be undefined). */
  datatype Click = NoHandler | Reports(id: Option<string>)

  /** What the render map produces for one mesh: its key, whether it is
      drawn, whether it is highlighted (transparent and colour-writing),
      its click handler and its material colour. */
  datatype RenderedMesh = RenderedMesh(uuid: string, visible: bool, highlighted: bool, click: Click, color: Option<int>)

  /** `locked || parent == activeEntityId` */
  predicate IsVisible<S>(d: UserData<S>, activeEntityId: Option<string>) {
    d.locked || d.parent == activeEntityId
  }

  /** One iteration of `model.children.map`. */
  function RenderMesh<S>(mesh: Node<S>, activeId: Option<string>, activeEntityId: Option<string>): (m: RenderedMesh)
    ensures m.uuid == mesh.uuid
    ensures m.visible <==> mesh.userData.locked || mesh.userData.parent == activeEntityId
    ensures m.click != NoHandler <==> !mesh.userData.locked && mesh.userData.parent == activeEntityId
    ensures m.click != NoHandler ==> m.click == Reports(mesh.userData.id)
    ensures m.highlighted <==> activeId == Some(mesh.uuid)
    ensures m.color == if m.highlighted then mesh.color else Some(Unlit)
  {
    var active := activeId == Some(mesh.uuid);
    var visible := IsVisible(mesh.userData, activeEntityId);
    RenderedMesh(
      mesh.uuid,
      visible,
      active,
      if mesh.userData.locked || !visible then NoHandler else Reports(mesh.userData.id),
      if active then mesh.color else Some(Unlit))
  }

  /** The component's output for the meshes: nothing at all without an
      active camera; otherwise one rendered mesh per child, in order. A mesh
      is drawn iff it is locked or belongs to the active entity; it is
      clickable iff it is unlocked and drawn, and a click reports its `_ID`;
      it is highlighted iff its uuid is the hovered one, and every other
      mesh is unlit. */
  function Render<S>(children: seq<Node<S>>, camera: Option<Node<S>>,
                     activeId: Option<string>, activeEntityId: Option<string>): (r: Option<seq<RenderedMesh>>)
    ensures r.None? <==> camera.None?
    ensures r.Some? ==> |r.value| == |children|
    ensures r.Some? ==> forall i :: 0 <= i < |children| ==>
      var m, d := r.value[i], children[i].userData;
      && m.uuid == children[i].uuid
      && (m.visible <==> d.locked || d.parent == activeEntityId)
      && (m.click != NoHandler <==> !d.locked && m.visible)
      && (m.click != NoHandler ==> m.click == Reports(d.id) && d.parent == activeEntityId)
      && (m.highlighted <==> activeId == Some(children[i].uuid))
      && (!m.highlighted ==> m.color == Some(Unlit))
      && (m.highlighted ==> m.color == children[i].color)
  {
    if camera.None? then None
    else Some(seq(|children|, i requires 0 <= i < |children| => RenderMesh(children[i], activeId, activeEntityId)))
  }

  /** With distinct uuids, at most one mesh is highlighted. */
  lemma AtMostOneHighlighted<S>(children: seq<Node<S>>, camera: Option<Node<S>>,
                                activeId: Option<string>, activeEntityId: Option<string>)
    requires forall i, j :: 0 <= i < j < |children| ==> children[i].uuid != children[j].uuid
    requires camera.Some?
    ensures var r := Render(children, camera, activeId, activeEntityId).value;
      forall i, j :: 0 <= i < |r| && 0 <= j < |r| && r[i].highlighted && r[j].highlighted ==> i == j
  {
  }

  /** Over the meshes the loader collects, every mesh named with the lock
      marker is drawn whatever entity is active and never clickable. */
  lemma {:induction false} LockedSurfacesInert<S>(nodes: seq<Node<S>>, camera: Option<Node<S>>,
                                                  activeId: Option<string>, activeEntityId: Option<string>)
    requires camera.Some?
    ensures var children := Meshes(nodes);
      var r := Render(children, camera, activeId, activeEntityId).value;
      forall i :: 0 <= i < |children| && Contains(children[i].name, LockMarker) ==>
        r[i].visible && r[i].click == NoHandler
  {
    var children := Meshes(nodes);
    MeshesOnly(nodes);
    forall i | 0 <= i < |children| && Contains(children[i].name, LockMarker)
      ensures children[i].userData.locked
    {
      assert children[i] in children;
    }
  }

  // ---------------------------------------------------------------------
  // Placing the view camera every frame

  /** How the view camera is turned: by a quaternion, or towards a target
      point (`lookAt`). */
  datatype Orientation<S> = FromQuaternion(q: Quat<S>) | Facing(target: Vec3<S>)

  /** The renderer's default camera, as far as the per-frame update sets it. */
  class ViewCamera<S> {
    var position: Vec3<S>
    var orientation: Orientation<S>
    var fov: Option<S>

    constructor (position: Vec3<S>, orientation: Orientation<S>, fov: Option<S>)
      ensures this.position == position && this.orientation == orientation && this.fov == fov
    {
      this.position := position;
      this.orientation := orientation;
      this.fov := fov;
    }

    /** The `useFrame` callback for the active `camera` and `animation` at
        turntable frame `frame`. An animation wins over the static camera:
        it places the camera at its keyframe `frame`. Without an animation
        the static camera's placement is copied. Then a camera with a
        look-at point is turned towards it, and a camera's non-zero field
        of view is copied. `ok` is false when the callback throws, which
        it does when the animation has no keyframe `frame` (nothing is
        changed) or no rotation for it (the position is already set). */
    method ApplyFrame(camera: Option<Node<S>>, animation: Option<AnimationData<S>>, frame: int) returns (ok: bool)
      modifies this
      ensures ok <==> (animation.None? ||
                       (0 <= frame < |animation.value.positions| && frame < |animation.value.rotations|))
      ensures animation.Some? && !(0 <= frame < |animation.value.positions|) ==> unchanged(this)
      ensures animation.Some? && 0 <= frame < |animation.value.positions| ==>
        position == animation.value.positions[frame]
      ensures !ok ==> orientation == old(orientation) && fov == old(fov)
      ensures animation.None? && camera.None? ==> unchanged(this)
      ensures animation.None? && camera.Some? ==> position == camera.value.position
      ensures ok && (camera.None? || camera.value.userData.lookAt.None?) ==>
        orientation == if animation.Some? then FromQuaternion(animation.value.rotations[frame])
                       else if camera.Some? then FromQuaternion(camera.value.quaternion)
                       else old(orientation)
      ensures ok && camera.Some? && camera.value.userData.lookAt.Some? ==>
        orientation == Facing(camera.value.userData.lookAt.value)
      ensures ok ==> fov == if camera.Some? && camera.value.fov.Some? then camera.value.fov else old(fov)
    {
      if animation.Some? {
        var positions, rotations := animation.value.positions, animation.value.rotations;
        if !(0 <= frame < |positions|) {
          return false;
        }
        position := positions[frame];
        if !(frame < |rotations|) {
          return false;
        }
        orientation := FromQuaternion(rotations[frame]);
      } else if camera.Some? {
        position := camera.value.position;
        orientation := FromQuaternion(camera.value.quaternion);
      }
      if camera.Some? && camera.value.userData.lookAt.Some? {
        orientation := Facing(camera.value.userData.lookAt.value);
      }
      if camera.Some? && camera.value.fov.Some? {
        fov := camera.value.fov;
      }
      ok := true;
    }
  }
}
