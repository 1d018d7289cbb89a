/** The scene-graph side of CubeKiller/GameViewController.swift: the nodes the
    controller creates, the subset attached to the scene, the spawn timer field
    and the explosions it adds. */
module GameScene {
  import Colors
  import opened GameRules

  datatype Option<T> = None | Some(value: T)

  /** Scene coordinates; SceneKit's `Float` components are modelled as reals. */
  datatype Vec3 = Vec3(x: real, y: real, z: real) {
    function Plus(o: Offset): Vec3 {
      Vec3(x + o.x as real, y + o.y as real, z + o.z as real)
    }
  }

  /** An axis-angle rotation (`SCNVector4`). */
  datatype Rotation = Rotation(x: real, y: real, z: real, w: real)

  /** The masks and gravity flag of an `SCNPhysicsBody`. */
  datatype PhysicsBody = PhysicsBody(category: Mask, contactTest: Mask, collision: Mask, affectedByGravity: bool)

  /** A fresh dynamic body as SceneKit makes it: default category (bit 0),
      no contact tests, collides with everything, falls under gravity. */
  const DynamicBody: PhysicsBody := PhysicsBody(0x1, 0x0, 0xFFFF_FFFF_FFFF_FFFF, true)

  /** The `SCNAction`s the controller attaches to a node. Running them is the
      engine's scheduler; the model records them. */
  datatype NodeAction =
    | FadeIn(duration: real)           // fade from opacity 0 to 1
    | WaitThenRemove(delay: real)      // wait, then removeFromParentNode
    | WaitThenExplode(delay: real)     // wait, then the controller's explode

  /** What the controller knows of an `SCNNode`. Its material's diffuse colour
      is kept as the hex literal it was made from (`tint`); `Colors.FromHex`
      gives the UIColor. */
  datatype SceneNode = SceneNode(
    name: string,
    body: Option<PhysicsBody>,
    position: Vec3,
    rotation: Rotation,
    opacity: real,
    tint: Option<int>,
    actions: seq<NodeAction>)

  /** A particle explosion placed where a node was when it exploded. */
  datatype Explosion = Explosion(position: Vec3, rotation: Rotation, color: Option<Colors.Color>)

  type NodeId = nat

  /** The fade-in a new target runs. */
  const TargetFadeIn: real := 1.0
  /** How long a bullet lives unless SceneKit removes it earlier. */
  const BulletLifetime: real := 2.0
  /** Number of targets `viewDidLoad` spawns. */
  const InitialTargets: nat := 15

  /** The target `spawnTarget()` adds for a gamer at `gamer` and the given draws. */
  function NewTarget(gamer: Vec3, d: SpawnDraw): (n: SceneNode)
    requires IsSpawnDraw(d)
    ensures n.name == NodeName(TargetBody)
    ensures n.body.Some? && n.body.value.category == CategoryOf(TargetBody)
    ensures n.body.value.contactTest == TargetMask() && n.body.value.collision == TargetMask()
    ensures !n.body.value.affectedByGravity
    ensures -SpawnRange as real <= n.position.x - gamer.x <= SpawnRange as real
    ensures n.position.y == gamer.y
    ensures -SpawnRange as real <= n.position.z - gamer.z <= SpawnRange as real
    ensures n.opacity == 0.0
    ensures n.tint.Some? && n.tint.value in Colors.Palette()
    ensures n.actions == [FadeIn(TargetFadeIn)]
  {
    var body := DynamicBody.(affectedByGravity := false, category := RawValue(Target),
                             contactTest := TargetMask(), collision := TargetMask());
    SceneNode(NodeName(TargetBody), Some(body), gamer.Plus(SpawnOffset(d)), Rotation(0.0, 0.0, 0.0, 0.0),
              0.0, Some(Colors.RandomHex(d.color)), [FadeIn(TargetFadeIn)])
  }

  /** The bullet `shootButtonPressed` adds at the gamer's position. */
  function NewBullet(gamer: Vec3): (n: SceneNode)
    ensures n.name == NodeName(BulletBody)
    ensures n.body.Some? && n.body.value.category == CategoryOf(BulletBody)
    ensures n.body.value.contactTest == ContactTestOf(BulletBody)
    ensures !n.body.value.affectedByGravity
    ensures n.position == gamer
    ensures n.actions == [WaitThenRemove(BulletLifetime)]
  {
    var body := DynamicBody.(category := RawValue(Bullet), contactTest := RawValue(Target),
                             affectedByGravity := false);
    SceneNode(NodeName(BulletBody), Some(body), gamer, Rotation(0.0, 0.0, 0.0, 0.0), 1.0, None,
              [WaitThenRemove(BulletLifetime)])
  }

  /** `boxNode.physicsBody?.… = …`: the gamer box's category and contact masks;
      a box without a body is left as it is. */
  function WithGamerMasks(n: SceneNode): (m: SceneNode)
    ensures n.body.Some? <==> m.body.Some?
    ensures m.body.Some? ==>
      && m.body.value.category == CategoryOf(GamerBox)
      && m.body.value.contactTest == ContactTestOf(GamerBox)
      && m.body.value.collision == n.body.value.collision
      && m.body.value.affectedByGravity == n.body.value.affectedByGravity
    ensures m.(body := n.body) == n
  {
    match n.body
    case None => n
    case Some(b) => n.(body := Some(b.(category := RawValue(Gamer), contactTest := RawValue(Target))))
  }

  /** The explosion `explode(node:)` places: the node's pose and colour at the
      time of the call. */
  function ExplosionOf(n: SceneNode): (e: Explosion)
    ensures e.position == n.position && e.rotation == n.rotation
    ensures e.color.Some? <==> n.tint.Some?
    ensures n.tint.Some? ==> e.color.value == Colors.FromHex(n.tint.value)
  {
    Explosion(n.position, n.rotation, if n.tint.Some? then Some(Colors.FromHex(n.tint.value)) else None)
  }

  class GameViewController {
    /** `spawnTime`: the frame time after which the next target spawns. */
    var spawnTime: real
    /** Every node the controller can reach, by identity. */
    var nodes: map<NodeId, SceneNode>
    /** The nodes attached to the scene's root node. */
    var live: set<NodeId>
    /** The identity the next created node gets. */
    var nextId: NodeId
    /** The particle systems added to the scene, in order. */
    var effects: seq<Explosion>
    /** `boxNode`, the gamer's collision box. */
    const box: NodeId

    ghost predicate Valid()
      reads this
    {
      && live <= nodes.Keys
      && box in nodes
      && (forall id :: id in nodes ==> id < nextId)
    }

    /** The scene as loaded, holding the gamer box named "gamerBox". */
    constructor (gamerBox: SceneNode)
      requires gamerBox.name == NodeName(GamerBox)
      ensures Valid()
      ensures spawnTime == 0.0
      ensures nodes == map[0 := gamerBox] && live == {0} && box == 0
      ensures nextId == 1 && effects == []
    {
      spawnTime := 0.0;
      nodes := map[0 := gamerBox];
      live := {0};
      box := 0;
      nextId := 1;
      effects := [];
    }

    /** `spawnTarget()`: a new target, attached to the scene. */
    method SpawnTarget(gamer: Vec3, d: SpawnDraw) returns (id: NodeId)
      requires Valid() && IsSpawnDraw(d)
      modifies this
      ensures Valid()
      ensures id == old(nextId) && id !in old(nodes) && nextId == id + 1
      ensures nodes == old(nodes)[id := NewTarget(gamer, d)]
      ensures live == old(live) + {id}
      ensures spawnTime == old(spawnTime) && effects == old(effects)
    {
      id := nextId;
      nodes := nodes[id := NewTarget(gamer, d)];
      live := live + {id};
      nextId := nextId + 1;
    }

    /** `(1...n).forEach { spawnTarget() }`: one spawn per draw, in order. */
    method SpawnTargets(gamer: Vec3, draws: seq<SpawnDraw>)
      requires Valid()
      requires forall i :: 0 <= i < |draws| ==> IsSpawnDraw(draws[i])
      modifies this
      ensures Valid()
      ensures nextId == old(nextId) + |draws|
      ensures forall id :: id in nodes <==> id in old(nodes) || old(nextId) <= id < nextId
      ensures forall id :: id in old(nodes) ==> nodes[id] == old(nodes[id])
      ensures forall i :: 0 <= i < |draws| ==> nodes[old(nextId) + i] == NewTarget(gamer, draws[i])
      ensures forall id :: id in live <==> id in old(live) || old(nextId) <= id < nextId
      ensures spawnTime == old(spawnTime) && effects == old(effects)
    {
      for k := 0 to |draws|
        invariant Valid()
        invariant nextId == old(nextId) + k
        invariant forall id :: id in nodes <==> id in old(nodes) || old(nextId) <= id < nextId
        invariant forall id :: id in old(nodes) ==> nodes[id] == old(nodes[id])
        invariant forall i :: 0 <= i < k ==> nodes[old(nextId) + i] == NewTarget(gamer, draws[i])
        invariant forall id :: id in live <==> id in old(live) || old(nextId) <= id < nextId
        invariant spawnTime == old(spawnTime) && effects == old(effects)
      {
        var id := SpawnTarget(gamer, draws[k]);
      }
    }

    /** `viewDidLoad`: masks on the gamer box, then fifteen spawns. */
    method ViewDidLoad(gamer: Vec3, draws: seq<SpawnDraw>)
      requires Valid()
      requires |draws| == InitialTargets
      requires forall i :: 0 <= i < |draws| ==> IsSpawnDraw(draws[i])
      modifies this
      ensures Valid()
      ensures nextId == old(nextId) + InitialTargets
      ensures forall id :: id in nodes <==> id in old(nodes) || old(nextId) <= id < nextId
      ensures nodes[box] == WithGamerMasks(old(nodes[box]))
      ensures forall id :: id in old(nodes) && id != box ==> nodes[id] == old(nodes[id])
      ensures forall i :: 0 <= i < InitialTargets ==> nodes[old(nextId) + i] == NewTarget(gamer, draws[i])
      ensures forall id :: id in live <==> id in old(live) || old(nextId) <= id < nextId
      ensures spawnTime == old(spawnTime) && effects == old(effects)
    {
      nodes := nodes[box := WithGamerMasks(nodes[box])];
      SpawnTargets(gamer, draws);
    }

    /** `renderer(_:updateAtTime:)`: at most one spawn per frame, and only
      once the frame time is past `spawnTime`. */
    method Update(time: real, gamer: Vec3, d: SpawnDraw) returns (spawned: bool)
      requires Valid() && IsSpawnDraw(d)
      modifies this
      ensures Valid()
      ensures spawned == UpdateTimer(old(spawnTime), time).spawn
      ensures spawnTime == UpdateTimer(old(spawnTime), time).spawnTime
      ensures spawned ==>
        && nextId == old(nextId) + 1
        && nodes == old(nodes)[old(nextId) := NewTarget(gamer, d)]
        && live == old(live) + {old(nextId)}
      ensures !spawned ==> nextId == old(nextId) && nodes == old(nodes) && live == old(live)
      ensures effects == old(effects)
    {
      spawned := time > spawnTime;
      if spawned {
        var id := SpawnTarget(gamer, d);
        spawnTime := time + SpawnInterval;
      }
    }

    /** `shootButtonPressed`: a bullet at the gamer, set to remove itself. */
    method ShootButtonPressed(gamer: Vec3) returns (id: NodeId)
      requires Valid()
      modifies this
      ensures Valid()
      ensures id == old(nextId) && id !in old(nodes) && nextId == id + 1
      ensures nodes == old(nodes)[id := NewBullet(gamer)]
      ensures live == old(live) + {id}
      ensures spawnTime == old(spawnTime) && effects == old(effects)
    {
      id := nextId;
      nodes := nodes[id := NewBullet(gamer)];
      live := live + {id};
      nextId := nextId + 1;
    }

    /** `explode(node:)`: an explosion where the node is now, then the node
      leaves the scene. Nothing else changes; a node already removed only
      adds the explosion. */
    method Explode(id: NodeId)
      requires Valid() && id in nodes
      modifies this
      ensures Valid()
      ensures effects == old(effects) + [ExplosionOf(old(nodes[id]))]
      ensures live == old(live) - {id}
      ensures nodes == old(nodes) && nextId == old(nextId) && spawnTime == old(spawnTime)
    {
      effects := effects + [ExplosionOf(nodes[id])];
      live := live - {id};
    }

    /** `removeFromParentNode`, which a bullet runs when its lifetime ends. */
    method RemoveFromParent(id: NodeId)
      requires Valid() && id in nodes
      modifies this
      ensures Valid()
      ensures live == old(live) - {id}
      ensures nodes == old(nodes) && nextId == old(nextId)
      ensures spawnTime == old(spawnTime) && effects == old(effects)
    {
      live := live - {id};
    }

    /** `physicsWorld(_:didBegin:)` for a contact between nodes `a` and `b`. */
    method DidBegin(a: NodeId, b: NodeId)
      requires Valid() && a in nodes && b in nodes && a != b
      modifies this
      ensures Valid()
      ensures var r := Classify(old(nodes[a].name), old(nodes[b].name));
        var target := if r.target == NodeA then a else b;
        var other := if r.target == NodeA then b else a;
        match r.response
        case ExplodeTargetAfter(delay) =>
          && nodes == old(nodes)[target := old(nodes[target]).(actions := old(nodes[target].actions) + [WaitThenExplode(delay)])]
          && live == old(live) && effects == old(effects)
        case ExplodeTarget =>
          && nodes == old(nodes)
          && live == old(live) - {target}
          && effects == old(effects) + [ExplosionOf(old(nodes[target]))]
        case ExplodeBoth =>
          && nodes == old(nodes)
          && live == old(live) - {a, b}
          && effects == old(effects) + [ExplosionOf(old(nodes[other])), ExplosionOf(old(nodes[target]))]
      ensures nextId == old(nextId) && spawnTime == old(spawnTime)
    {
      var r := Classify(nodes[a].name, nodes[b].name);
      var target, other := if r.target == NodeA then a else b, if r.target == NodeA then b else a;
      match r.response
      case ExplodeTargetAfter(delay) =>
        var n := nodes[target];
        nodes := nodes[target := n.(actions := n.actions + [WaitThenExplode(delay)])];
      case ExplodeTarget =>
        Explode(target);
      case ExplodeBoth =>
        Explode(other);
        Explode(target);
    }
  }
}
