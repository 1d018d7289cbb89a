/** The pure rules of CubeKiller/GameViewController.swift: collider bitmasks,
    the name-based dispatch of a physics contact, the frame-driven spawn timer
    and the random placement of a new target. */
module GameRules {
  import Number
  import Colors

  /** SceneKit's category, contact-test and collision masks are `Int`s. */
  type Mask = bv64

  /** `GameViewController.ColliderCategory`. */
  datatype ColliderCategory = Gamer | Bullet | Target

  function RawValue(c: ColliderCategory): (m: Mask)
    ensures m != 0 && m & (m - 1) == 0
  {
    match c
    case Gamer => 0x1
    case Bullet => 0x2
    case Target => 0x4
  }

  /** The categories are distinct single bits: any two of them share no bit. */
  lemma CategoriesDisjoint(c1: ColliderCategory, c2: ColliderCategory)
    ensures RawValue(c1) & RawValue(c2) == 0 <==> c1 != c2
  {
  }

  /** `gamer | bullet | target`: what a target tests contact against and collides with. */
  function TargetMask(): (m: Mask)
    ensures forall c: ColliderCategory :: m & RawValue(c) == RawValue(c)
    ensures m == 7
  {
    RawValue(Gamer) | RawValue(Bullet) | RawValue(Target)
  }

  /** The three kinds of physics body the controller sets masks on: the gamer's
      collision box, a bullet and a target. */
  datatype BodyKind = GamerBox | BulletBody | TargetBody

  /** The node name each kind of body carries. */
  function NodeName(k: BodyKind): string
  {
    match k
    case GamerBox => "gamerBox"
    case BulletBody => "bullet"
    case TargetBody => "target"
  }

  function CategoryOf(k: BodyKind): (m: Mask)
  {
    match k
    case GamerBox => RawValue(Gamer)
    case BulletBody => RawValue(Bullet)
    case TargetBody => RawValue(Target)
  }

  function ContactTestOf(k: BodyKind): (m: Mask)
  {
    match k
    case GamerBox => RawValue(Target)
    case BulletBody => RawValue(Target)
    case TargetBody => TargetMask()
  }

  /** SceneKit reports a contact between two bodies when either body's
      contact-test mask shares a bit with the other body's category. */
  predicate ContactReported(categoryA: Mask, contactA: Mask, categoryB: Mask, contactB: Mask) {
    categoryA & contactB != 0 || categoryB & contactA != 0
  }

  predicate KindsReported(a: BodyKind, b: BodyKind) {
    ContactReported(CategoryOf(a), ContactTestOf(a), CategoryOf(b), ContactTestOf(b))
  }

  /** Every reported pair involves a target; the gamer box and a bullet never
      report each other, nor two bullets. */
  lemma ReportedIffTarget(a: BodyKind, b: BodyKind)
    ensures KindsReported(a, b) <==> a == TargetBody || b == TargetBody
  {
  }

  /** The two sides of an `SCNPhysicsContact`. */
  datatype Side = NodeA | NodeB {
    function Opposite(): Side {
      if this == NodeA then NodeB else NodeA
    }
  }

  /** What the contact handler does to the nodes it picked. */
  datatype Response =
    | ExplodeTargetAfter(delay: real)  // the target runs wait(delay) then explode
    | ExplodeTarget                    // explode the target now
    | ExplodeBoth                      // explode the other node, then the target

  datatype Resolution = Resolution(target: Side, other: Side, response: Response)

  /** The wait a bullet hit puts before the explosion. */
  const BulletExplodeDelay: real := 0.3

  function NameAt(s: Side, nameA: string, nameB: string): string {
    if s == NodeA then nameA else nameB
  }

  /** `physicsWorld(_:didBegin:)`: nodeA is the target when it is named
      "target", nodeB otherwise; the other node's name picks the response. */
  function Classify(nameA: string, nameB: string): (r: Resolution)
    ensures r.target == NodeA <==> nameA == "target"
    ensures r.other == r.target.Opposite()
    ensures r.response.ExplodeTargetAfter? <==> NameAt(r.other, nameA, nameB) == "bullet"
    ensures r.response.ExplodeTargetAfter? ==> r.response.delay == BulletExplodeDelay
    ensures r.response == ExplodeTarget <==> NameAt(r.other, nameA, nameB) == "gamerBox"
  {
    var target := if nameA == "target" then NodeA else NodeB;
    var other := target.Opposite();
    var otherName := NameAt(other, nameA, nameB);
    var response :=
      if otherName == "bullet" then ExplodeTargetAfter(BulletExplodeDelay)
      else if otherName == "gamerBox" then ExplodeTarget
      else ExplodeBoth;
    Resolution(target, other, response)
  }

  /** The sides the handler removes from the scene before it returns. */
  function ExplodedNow(r: Resolution): set<Side>
  {
    match r.response
    case ExplodeTargetAfter(_) => {}
    case ExplodeTarget => {r.target}
    case ExplodeBoth => {r.target, r.other}
  }

  /** When nodeA is not named "target", nodeB's name is never looked at. */
  lemma ClassifyIgnoresNameB(nameA: string, nameB1: string, nameB2: string)
    requires nameA != "target"
    ensures Classify(nameA, nameB1) == Classify(nameA, nameB2)
  {
  }

  /** The dispatch is symmetric in the order SceneKit reports a target and a
      non-target: either way the target is the node named "target". */
  lemma ClassifyOrderInsensitive(name: string)
    requires name != "target"
    ensures Classify("target", name).target == NodeA
    ensures Classify(name, "target").target == NodeB
    ensures Classify("target", name).response == Classify(name, "target").response
  {
  }

  function KindAt(s: Side, a: BodyKind, b: BodyKind): BodyKind {
    if s == NodeA then a else b
  }

  /** For every contact SceneKit reports between the three kinds of body: the
      node picked as target is a target; a bullet hit delays the target's
      explosion and removes nothing; touching the gamer box explodes only the
      target; and both nodes explode exactly for two targets. No bullet and no
      gamer box is ever removed by a contact. */
  lemma ReportedContactResolution(a: BodyKind, b: BodyKind)
    requires KindsReported(a, b)
    ensures var r := Classify(NodeName(a), NodeName(b));
      && KindAt(r.target, a, b) == TargetBody
      && (r.response.ExplodeTargetAfter? <==> KindAt(r.other, a, b) == BulletBody)
      && (r.response == ExplodeTarget <==> KindAt(r.other, a, b) == GamerBox)
      && (r.response == ExplodeBoth <==> a == TargetBody && b == TargetBody)
      && (forall s :: s in ExplodedNow(r) ==> KindAt(s, a, b) == TargetBody)
  {
  }

  /** The gap `renderer(_:updateAtTime:)` puts between two spawns. */
  const SpawnInterval: real := 1.0

  datatype TimerStep = TimerStep(spawn: bool, spawnTime: real)

  /** One frame of the spawn timer: spawn when the frame time is past
      `spawnTime`, and then move `spawnTime` one interval past the frame. */
  function UpdateTimer(spawnTime: real, time: real): (s: TimerStep)
    ensures s.spawn <==> time > spawnTime
    ensures s.spawn ==> s.spawnTime > time && s.spawnTime - time == SpawnInterval
    ensures !s.spawn ==> s.spawnTime == spawnTime
    ensures s.spawnTime >= spawnTime
  {
    if time > spawnTime then TimerStep(true, time + SpawnInterval)
    else TimerStep(false, spawnTime)
  }

  /** The frame times, among `times`, at which a target is spawned when the
      timer starts at `spawnTime`. */
  function SpawnFrames(spawnTime: real, times: seq<real>): (spawns: seq<real>)
    ensures |spawns| <= |times|
    ensures forall i :: 0 <= i < |spawns| ==> spawns[i] in times
    decreases |times|
  {
    if times == [] then []
    else
      var step := UpdateTimer(spawnTime, times[0]);
      var rest := SpawnFrames(step.spawnTime, times[1..]);
      assert forall t :: t in rest ==> t in times;
      if step.spawn then [times[0]] + rest else rest
  }

  /** Every spawn lies more than one interval per earlier spawn past `start`,
      and any two spawns more than one interval per step between them apart. */
  predicate SpacedAfter(start: real, spawns: seq<real>) {
    && (forall i :: 0 <= i < |spawns| ==> spawns[i] > start + i as real * SpawnInterval)
    && (forall i, j :: 0 <= i < j < |spawns| ==> spawns[j] > spawns[i] + (j - i) as real * SpawnInterval)
  }

  /** Whatever the frame times, the spawns they trigger are spaced after the
      initial `spawnTime`. */
  lemma {:induction false} SpawnsSpaced(spawnTime: real, times: seq<real>)
    ensures SpacedAfter(spawnTime, SpawnFrames(spawnTime, times))
    decreases |times|
  {
    if times != [] {
      var step := UpdateTimer(spawnTime, times[0]);
      var rest := SpawnFrames(step.spawnTime, times[1..]);
      SpawnsSpaced(step.spawnTime, times[1..]);
      assert SpacedAfter(step.spawnTime, rest);
      if step.spawn {
        var spawns := [times[0]] + rest;
        assert spawns == SpawnFrames(spawnTime, times);
        forall i | 1 <= i < |spawns|
          ensures spawns[i] > times[0] + i as real * SpawnInterval
        {
          assert spawns[i] == rest[i - 1];
          assert rest[i - 1] > step.spawnTime + (i - 1) as real * SpawnInterval;
        }
        forall i, j | 1 <= i < j < |spawns|
          ensures spawns[j] > spawns[i] + (j - i) as real * SpawnInterval
        {
          assert spawns[j] == rest[j - 1] && spawns[i] == rest[i - 1];
        }
        assert SpacedAfter(spawnTime, spawns);
      } else {
        assert rest == SpawnFrames(spawnTime, times);
      }
    }
  }

  /** Frames up to `horizon` spawn at most one target per interval after the
      first. */
  lemma SpawnCountBound(spawnTime: real, times: seq<real>, horizon: real)
    requires forall i :: 0 <= i < |times| ==> times[i] <= horizon
    ensures var n := |SpawnFrames(spawnTime, times)|;
      n == 0 || (n - 1) as real * SpawnInterval < horizon - spawnTime
  {
    var spawns := SpawnFrames(spawnTime, times);
    if spawns != [] {
      SpawnsSpaced(spawnTime, times);
      var k := |spawns| - 1;
      assert spawns[k] > spawnTime + k as real * SpawnInterval;
      assert spawns[k] in times;
      var idx :| 0 <= idx < |times| && times[idx] == spawns[k];
      assert spawns[k] <= horizon;
    }
  }

  /** Frames that all fall in a window of `width` seconds spawn at most one
      target per interval after the first, whatever `spawnTime` the timer
      holds when the window opens. The frame times are the clock SceneKit
      passes to the renderer, so the window can start anywhere. */
  lemma WindowSpawnBound(spawnTime: real, times: seq<real>, t0: real, width: real)
    requires forall i :: 0 <= i < |times| ==> t0 <= times[i] <= t0 + width
    ensures var n := |SpawnFrames(spawnTime, times)|;
      n <= 1 || (n - 1) as real * SpawnInterval < width
  {
    var spawns := SpawnFrames(spawnTime, times);
    if spawns != [] {
      SpawnsSpaced(spawnTime, times);
      var k := |spawns| - 1;
      assert spawns[0] in times && spawns[k] in times;
      var first :| 0 <= first < |times| && times[first] == spawns[0];
      var last :| 0 <= last < |times| && times[last] == spawns[k];
      if k > 0 {
        assert spawns[k] > spawns[0] + (k - 0) as real * SpawnInterval;
      }
    }
  }

  /** Any 3.5 s of frames spawns at most four targets. */
  lemma WindowSpawnAtMostFour(spawnTime: real, times: seq<real>, t0: real)
    requires forall i :: 0 <= i < |times| ==> t0 <= times[i] <= t0 + 3.5
    ensures |SpawnFrames(spawnTime, times)| <= 4
  {
    WindowSpawnBound(spawnTime, times, t0, 3.5);
  }

  /** Half-width of the square around the gamer in which targets spawn. */
  const SpawnRange: int := 10

  /** The random draws one `spawnTarget()` consumes: x and z offsets from
      `arc4random_uniform(21)`, the tint from `arc4random_uniform(18)`. */
  datatype SpawnDraw = SpawnDraw(x: nat, z: nat, color: nat)

  const OffsetSpan: nat := 2 * SpawnRange + 1
  /** The number of tints `UIColor.random()` chooses from. */
  const PaletteSize: nat := |Colors.Palette()|

  predicate IsSpawnDraw(d: SpawnDraw) {
    && Number.IsUniformDraw(OffsetSpan, d.x)
    && Number.IsUniformDraw(OffsetSpan, d.z)
    && Number.IsUniformDraw(PaletteSize, d.color)
  }

  datatype Offset = Offset(x: int, y: int, z: int)

  predicate InSpawnSquare(o: Offset) {
    -SpawnRange <= o.x <= SpawnRange && o.y == 0 && -SpawnRange <= o.z <= SpawnRange
  }

  /** The offset from the gamer at which `spawnTarget()` places a target:
      `Int.random(min: -10, max: 10)` on x and z, nothing on y. */
  function SpawnOffset(d: SpawnDraw): (o: Offset)
    requires IsSpawnDraw(d)
    ensures InSpawnSquare(o)
  {
    Offset(Number.RandomInt(-SpawnRange, SpawnRange, d.x), 0,
           Number.RandomInt(-SpawnRange, SpawnRange, d.z))
  }

  /** Every integer point of the square is reachable by some draw. */
  lemma SpawnOffsetCovers(o: Offset, color: nat)
    requires InSpawnSquare(o)
    requires color < PaletteSize
    ensures IsSpawnDraw(SpawnDraw(o.x + SpawnRange, o.z + SpawnRange, color))
    ensures SpawnOffset(SpawnDraw(o.x + SpawnRange, o.z + SpawnRange, color)) == o
  {
  }
}
