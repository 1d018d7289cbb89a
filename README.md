# CubeKiller game rules in Dafny

CubeKiller is a small SceneKit shooter. The player's avatar (the "gamer") moves
over a field. Cubes named "target" appear around the gamer. The player fires
"bullet" spheres, and a target explodes when a bullet or the gamer's collision
box ("gamerBox") touches it. This project models the rules the game controller
and its helpers apply, and proves properties of them:

- `number.dfy`, module `Number` (CubeKiller/Number.swift): `Int.random(min:max:)`.
  The value that `arc4random_uniform` returns is an explicit argument. It
  satisfies `IsUniformDraw`: below the bound, or 0 when the bound is 0 or 1.
- `uicolor.dfy`, module `Colors` (CubeKiller/UIColor.swift): splitting a
  `0xRRGGBB` integer into byte channels, scaling them to [0, 1], the
  18-entry palette `UIColorList`, and `UIColor.random()`.
- `game_rules.dfy`, module `GameRules` (CubeKiller/GameViewController.swift):
  - the pure rules: the collider categories and the masks given to each kind
    of body;
  - SceneKit's test for whether a contact is reported;
  - the name-based dispatch of `physicsWorld(_:didBegin:)`;
  - one frame of the spawn timer, and the spawn times over a run of frames;
  - the random offset of a new target from the gamer.
- `game_scene.dfy`, module `GameScene` (CubeKiller/GameViewController.swift):
  the controller as a class. Its fields are:
  - `spawnTime`;
  - `nodes`, every node the controller created, by identity;
  - `live`, the nodes attached to the scene;
  - `effects`, the explosions added to the scene.

  Its methods are `spawnTarget`, `viewDidLoad`, the per-frame renderer
  callback, `shootButtonPressed`, `explode`, a bullet's removal and the
  contact handler. Each method states its whole new state.

Decisions taken where the code is not explicit:

- A contact is reported when either body's contact-test mask shares a bit with
  the other body's category. This is SceneKit's rule. Because the target's
  contact mask covers all three categories, the result is the same if both
  directions are required.
- A new dynamic body starts with SceneKit's defaults: category 1, contact-test
  mask 0, collision mask all ones, and gravity on. The code then overwrites
  some of these. A bullet keeps the default collision mask.
- Masks are SceneKit `Int`s, modelled as `bv64`. The channel extraction
  `(hex & 0xFF0000) >> 16` is written as `(hex / 0x10000) % 0x100`. On a
  two's-complement integer these agree for every value, negative ones
  included, because Dafny's `/` and `%` are Euclidean.
- Node names are Swift `String?`; the model's names are plain strings. A nil
  name compares unequal to every literal the handler tests, just as any other
  unlisted name does, so `GameRules.Classify` treats it like one.
- A node's diffuse colour is kept as the hex literal it was made from. The
  explosion turns it into a colour with `Colors.FromHex`.
- `explode(node:)` called on a node already detached from the scene still adds
  its explosion. It removes nothing, as `removeFromParentNode` on a detached
  node does nothing.

What the game does not do, and two choices of the controller:

- The game keeps no score and no live-target count, and it does not filter
  ground contacts.
- A target-to-target contact explodes both nodes at once
  (CubeKiller/GameViewController.swift:210-213).
- Targets spawn without gravity (CubeKiller/GameViewController.swift:95).

## Model

| member | source | states |
|---|---|---|
| `Number.RandomInt` | CubeKiller/Number.swift:12-14 | requires Int64 arguments, a span `max - min + 1` in 0..UInt32.max (the conversion traps otherwise), and a valid draw; ensures the result lies in [min, max] when min <= max, equals min when min == max, and fits an Int64, so the final `+ min` never overflows. For the empty span max == min - 1, `arc4random_uniform(0)` is 0 and the result is min |
| `Number.RandomIntInjective` | CubeKiller/Number.swift:13 | different draws give different results |
| `Number.RandomIntCoversRange` | CubeKiller/Number.swift:13 | every value v in [min, max] is the result of the valid draw v - min |
| `Colors.Red` | CubeKiller/UIColor.swift:56 | the red channel `(hex & 0xFF0000) >> 16` is a byte |
| `Colors.Green` | CubeKiller/UIColor.swift:57 | the green channel `(hex & 0x00FF00) >> 8` is a byte |
| `Colors.Blue` | CubeKiller/UIColor.swift:58 | the blue channel `hex & 0x0000FF` is a byte |
| `Colors.Channels` | CubeKiller/UIColor.swift:56-58 | all three channels of any hex are bytes |
| `Colors.Component` | CubeKiller/UIColor.swift:56-58 | a byte divided by 255.0 lies in [0, 1], and multiplying it by 255 gives the byte back |
| `Colors.FromHex` | CubeKiller/UIColor.swift:55-60 | `init(hex:)` gives components in [0, 1], each 255 times smaller than its channel, and alpha 1 |
| `Colors.ChannelsToHex` | CubeKiller/UIColor.swift:56-58 | for 0 <= hex <= 0xFFFFFF, red * 65536 + green * 256 + blue == hex |
| `Colors.HexToChannels` | CubeKiller/UIColor.swift:56-58 | three bytes written as 0xRRGGBB lie in 0..0xFFFFFF and decode to the same three bytes |
| `Colors.HighBitsIgnored` | CubeKiller/UIColor.swift:56-58 | hex and hex + k * 0x1000000 decode to the same channels, for every integer k |
| `Colors.FromHexInjective` | CubeKiller/UIColor.swift:55-60 | two 24-bit literals that give the same colour are equal |
| `Colors.Palette` | CubeKiller/UIColor.swift:26-45 | `UIColorList` has exactly 18 entries, each in 0..0xFFFFFF |
| `Colors.PaletteDistinct` | CubeKiller/UIColor.swift:26-45 | no two palette entries are equal |
| `Colors.RandomHex` | CubeKiller/UIColor.swift:49-53 | a valid draw for `arc4random_uniform(count)` indexes the palette in bounds, and gives one of its literals |
| `Colors.RandomColor` | CubeKiller/UIColor.swift:49-53 | `random()` gives a palette colour with alpha 1, and its draw is below the palette size |
| `Colors.RandomColorInjective` | CubeKiller/UIColor.swift:49-53 | two draws give the same colour exactly when they are equal, so `random()` can give 18 distinct colours |
| `GameRules.RawValue` | CubeKiller/GameViewController.swift:15-19 | each collider category is a nonzero single bit |
| `GameRules.CategoriesDisjoint` | CubeKiller/GameViewController.swift:15-19 | two categories share no bit exactly when they are different |
| `GameRules.TargetMask` | CubeKiller/GameViewController.swift:98-99 | the union of the gamer, bullet and target bits is 7 and contains every category |
| `GameRules.ReportedIffTarget` | CubeKiller/GameViewController.swift:97-99 | with the target masks here, the gamer box masks (lines 55-56) and the bullet masks (lines 117-118), a contact is reported exactly when one side is a target. The gamer box and a bullet never report each other |
| `GameRules.Classify` | CubeKiller/GameViewController.swift:193-213 | nodeA is the target exactly when it is named "target", and the other node is the opposite side. The response is a delayed explosion (0.3 s) exactly when the other node is named "bullet", and an immediate explosion of the target exactly when it is named "gamerBox". Any other name explodes both nodes |
| `GameRules.ClassifyIgnoresNameB` | CubeKiller/GameViewController.swift:193-199 | when nodeA is not named "target", nodeB's name does not affect the outcome |
| `GameRules.ClassifyOrderInsensitive` | CubeKiller/GameViewController.swift:193-199 | a target and a non-target get the same response in either contact order, and the "target" node is always the one picked |
| `GameRules.ReportedContactResolution` | CubeKiller/GameViewController.swift:187-216 | for every contact the masks report: the picked target is a target; a bullet hit only delays the target's explosion; the gamer box explodes only the target; both nodes explode exactly for two targets; and no bullet or gamer box is ever removed by a contact |
| `GameRules.UpdateTimer` | CubeKiller/GameViewController.swift:176-179 | a frame spawns exactly when time > spawnTime. After a spawn, spawnTime is time + 1, which is greater than time. Otherwise nothing changes, so spawnTime never decreases |
| `GameRules.SpawnFrames` | CubeKiller/GameViewController.swift:174-180 | over a run of frames there is at most one spawn per frame, and every spawn time is one of the frame times |
| `GameRules.SpawnsSpaced` | CubeKiller/GameViewController.swift:176-179 | for any frame times: the i-th spawn comes after the initial spawnTime + i, and spawns i < j are more than j - i seconds apart |
| `GameRules.SpawnCountBound` | CubeKiller/GameViewController.swift:176-179 | n spawns from frames up to a horizon satisfy n - 1 < horizon - spawnTime |
| `GameRules.WindowSpawnBound` | CubeKiller/GameViewController.swift:174-180 | for any spawnTime and frame times inside any window [t0, t0 + width] of the renderer's clock, n spawns satisfy n <= 1 or n - 1 < width |
| `GameRules.WindowSpawnAtMostFour` | CubeKiller/GameViewController.swift:174-180 | any 3.5 s of frames spawns at most four targets, whatever the clock reads and whatever spawnTime holds when the window opens |
| `GameRules.SpawnOffset` | CubeKiller/GameViewController.swift:91-94 | a target's offset from the gamer has integer x and z in [-10, 10] and y = 0 |
| `GameRules.SpawnOffsetCovers` | CubeKiller/GameViewController.swift:91-94 | every integer point of that square is the offset of some valid draw |
| `GameScene.NewTarget` | CubeKiller/GameViewController.swift:86-107 | a spawned target is named "target". Its category is target, and its contact-test and collision masks are 7. It is not affected by gravity. It lies within 10 of the gamer in x and z, at the gamer's height. It starts at opacity 0 with a 1 s fade-in, and is tinted with a palette colour |
| `GameScene.NewBullet` | CubeKiller/GameViewController.swift:110-128 | a bullet is named "bullet" and sits at the gamer's position. Its category is bullet and its contact mask is target. It ignores gravity and carries only its 2 s wait-then-remove action |
| `GameScene.WithGamerMasks` | CubeKiller/GameViewController.swift:55-56 | the gamer box gets category gamer and contact mask target if it has a body, and nothing else about it changes |
| `GameScene.ExplosionOf` | CubeKiller/GameViewController.swift:140-142 | an explosion takes the node's position, rotation and colour at the time of the call |
| `GameScene.GameViewController.constructor` | CubeKiller/GameViewController.swift:23 | spawnTime starts at 0 (line 23). The loaded scene's only modelled node is the gamer box, and there are no explosions |
| `GameScene.GameViewController.SpawnTarget` | CubeKiller/GameViewController.swift:86-107 | adds exactly one new node, `NewTarget`, under a fresh identity, and attaches it to the scene. Nothing else changes |
| `GameScene.GameViewController.SpawnTargets` | CubeKiller/GameViewController.swift:58-60 | n draws add n targets under consecutive fresh identities, in order, and attach them. Existing nodes and the other fields are unchanged |
| `GameScene.GameViewController.ViewDidLoad` | CubeKiller/GameViewController.swift:32-62 | sets the gamer box masks, then performs exactly 15 spawns. No other node changes |
| `GameScene.GameViewController.Update` | CubeKiller/GameViewController.swift:174-180 | spawns one target exactly when `UpdateTimer` says so, and sets spawnTime to the timer's next value. Otherwise the scene is unchanged |
| `GameScene.GameViewController.ShootButtonPressed` | CubeKiller/GameViewController.swift:110-128 | adds exactly one `NewBullet` at the gamer's position and attaches it. Nothing else changes |
| `GameScene.GameViewController.Explode` | CubeKiller/GameViewController.swift:139-153 | appends the node's explosion, sampled at call time, and detaches exactly that node. Nothing else changes |
| `GameScene.GameViewController.RemoveFromParent` | CubeKiller/GameViewController.swift:124-127 | a bullet's delayed removal detaches exactly that node |
| `GameScene.GameViewController.DidBegin` | CubeKiller/GameViewController.swift:187-216 | follows `Classify`. A bullet hit only appends wait(0.3)-then-explode to the target's actions. A gamerBox contact explodes the target now and leaves the box. Any other contact explodes the other node and then the target. Nothing else changes |

## Left out

- Floating point: `SCNVector3` arithmetic and positions are modelled as exact
  reals. A target's position is the gamer's position plus an integer offset.
- GameRules.SpawnsSpaced: the frame `time` and `spawnTime` are `TimeInterval`
  (Double), modelled as exact reals. In Double, `time + 1` (line 178) is
  rounded, so "more than j - i seconds apart" (and the window bounds built on
  it) holds only up to that rounding.
- Colors.Component, Colors.FromHex: the `CGFloat` components (channel / 255)
  are exact reals, so their round trip `x * 255 == channel` holds exactly in
  the model and only up to rounding in the program.
- The other nodes of the loaded scene are not modelled: the gamer, the camera
  and the hidden `targetBox` aim marker (CubeKiller/GameViewController.swift:50-53)
  are not in `nodes`. Only the gamer's position is used, as a parameter.
- `Float.random(min:max:)` and the generic `arc4random` in CubeKiller/Number.swift
  (float scaling and a raw memory fill) are not modelled.
- The random source: every `arc4random_uniform` result is an argument.
- CubeKiller/GameHelper.swift (audio) and CubeKiller/SCNNode.swift (an action
  helper) are not part of this model.
- Scene and asset loading, and the particle system set-up in `explode`
  (emitter shape, birth location, transform matrix), are not modelled. Only
  the pose and colour the explosion takes are recorded.
- Gestures (`handleTap`, `handlePan`), `moveForward` and the bullet's
  velocity `by * 8` are not modelled. The gamer's current position is a
  parameter of the methods that read it.
- The orientation overrides and the debug `print` are not modelled.
- The physics simulation is left out: which contacts begin, and how bodies
  move after they spawn. The contact rule is modelled only as the mask test.
  `explode(node:)` samples the node's presentation (simulated) pose
  (CubeKiller/GameViewController.swift:141-142); in the model that is the
  spawn pose, since no operation moves a node.
- Threads: SceneKit calls the renderer and contact callbacks on its rendering
  thread, while `viewDidLoad` and `shootButtonPressed` run on the main thread,
  and both add nodes to the same root node. The model runs each method
  atomically, one after another.
- The engine's action scheduler is left out. Actions (fade-in,
  wait-then-remove, wait-then-explode) are recorded on their node.
  `Explode` and `RemoveFromParent` are what they run when they fire.
- GameScene.GameViewController.Explode: `explode(node:)` traps on
  `node.geometry!` or `as! UIColor` when a node has no geometry or colour.
  The model instead records an explosion without a colour. Only the bullet,
  and the gamer box if it is loaded without one, have no recorded colour, and
  no contact explodes either
  (`GameRules.ReportedContactResolution`).
- GameScene.GameViewController.DidBegin: requires two distinct nodes that the
  controller knows. It does not cover a contact with a body from the scene
  file other than the gamer box, whose masks the code does not set.
