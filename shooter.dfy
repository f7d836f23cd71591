/**
 * The fruit shooter of game1/game.js: the game state, the player, the
 * enemies and what falls out of them, and the per-frame updates that the
 * animation loop runs while the game is neither stopped nor paused.
 *
 * Positions, sizes and speeds are integers here. The browser's canvas,
 * sounds, drawing, keyboard and mouse events, and every `Math.random()`
 * draw become parameters of the operations that use them.
 */
module Shooter {
  import opened Wrappers

  // ---------------------------------------------------------------- geometry

  datatype Rect = Rect(x: int, y: int, width: int, height: int)

  /** `checkCollision`: the two boxes overlap strictly on both axes. */
  predicate Overlap(a: Rect, b: Rect) {
    a.x < b.x + b.width && a.x + a.width > b.x &&
    a.y < b.y + b.height && a.y + a.height > b.y
  }

  /** Pixel (p, q) lies inside box r; a box covers x <= p < x + width. */
  predicate Covers(r: Rect, p: int, q: int) {
    r.x <= p < r.x + r.width && r.y <= q < r.y + r.height
  }

  /**
   * Two non-empty boxes collide exactly when they share a pixel. So the
   * test is symmetric, and boxes that merely touch along an edge do not
   * collide.
   */
  lemma {:induction false} OverlapSharesPixel(a: Rect, b: Rect)
    requires a.width > 0 && a.height > 0 && b.width > 0 && b.height > 0
    ensures Overlap(a, b) <==> exists p, q :: Covers(a, p, q) && Covers(b, p, q)
  {
    if Overlap(a, b) {
      var p := if a.x < b.x then b.x else a.x;
      var q := if a.y < b.y then b.y else a.y;
      assert Covers(a, p, q) && Covers(b, p, q);
    }
  }

  function Min(a: int, b: int): int { if a <= b then a else b }
  function Max(a: int, b: int): int { if a <= b then b else a }

  /** `Math.max(0, Math.min(hi, v))`: keeps the player on the canvas. */
  function Clamp(v: int, hi: int): (r: int)
    ensures hi >= 0 ==> 0 <= r <= hi
    ensures 0 <= v <= hi ==> r == v
  {
    Max(0, Min(hi, v))
  }

  // ----------------------------------------------------------------- enemies

  datatype Kind = Small | Medium | Large | Boss
  datatype Fruit = Apple | Banana | Orange | Cherry | MedApple
  datatype Effect = Power | Points

  datatype Enemy = Enemy(kind: Kind, box: Rect, health: int, maxHealth: int, score: int, fruit: Fruit)

  /** The `enemyTypes` table: side length, health, score and fruit of each kind. */
  function Side(k: Kind): int {
    match k
    case Small => 20
    case Medium => 30
    case Large => 40
    case Boss => 60
  }

  function Toughness(k: Kind): int {
    match k
    case Small => 1
    case Medium => 2
    case Large => 3
    case Boss => 5
  }

  function Worth(k: Kind): int {
    match k
    case Small => 10
    case Medium => 25
    case Large => 50
    case Boss => 100
  }

  function FruitOf(k: Kind): Fruit {
    match k
    case Small => Apple
    case Medium => Banana
    case Large => Orange
    case Boss => Cherry
  }

  /**
   * The kind `spawnEnemy` picks: `pick` stands for the random index into
   * small/medium/large, limited by the level, and `bossRoll` for the 5%
   * draw that turns it into a boss once the score is past 500 per level.
   */
  function SpawnKind(level: int, score: int, pick: nat, bossRoll: bool): (k: Kind)
    requires level >= 1
    ensures k == Boss <==> score > 500 * level && bossRoll
    ensures k == Medium ==> level >= 2
    ensures k == Large ==> level >= 3
  {
    var kinds := [Small, Medium, Large];
    if score > 500 * level && bossRoll then Boss else kinds[pick % Min(3, level)]
  }

  /** A freshly spawned enemy of kind k, at column x just above the screen. */
  function NewEnemy(k: Kind, x: int): (e: Enemy)
    ensures e.health == e.maxHealth > 0 && e.score > 0
    ensures e.box.y + e.box.height == 0
  {
    Enemy(k, Rect(x, -Side(k), Side(k), Side(k)), Toughness(k), Toughness(k), Worth(k), FruitOf(k))
  }

  /**
   * The random draws that make `updateEnemies` spawn an enemy this frame: the kind draw,
   * the boss draw and the column. `spawnEnemy` draws the column below the canvas width
   * minus the enemy's side (`InLane`); the model takes any column and states what a
   * column in the lane gives.
   */
  datatype Arrival = Arrival(pick: nat, bossRoll: bool, x: int)

  /** Column x lets an enemy of kind k fit on a canvas `width` wide. */
  predicate InLane(x: int, k: Kind, width: int) {
    0 <= x < width - Side(k)
  }

  // ------------------------------------------------------------------- items

  datatype Item = Item(box: Rect, kind: Kind, fruit: Fruit, effect: Effect, point: int)

  const ItemSpeed := 2

  /**
   * `dropItem`: a medium enemy leaves a medium apple worth 50 points;
   * every other enemy leaves its own fruit, which powers up the gun.
   */
  function DropItem(e: Enemy): (it: Item)
    ensures it.effect == Points <==> e.kind == Medium
    ensures it.effect == Points ==> it.fruit == MedApple && it.point == 50
    ensures it.effect == Power ==> it.fruit == e.fruit && it.point == 0
    ensures it.kind == e.kind && it.box.y == e.box.y
  {
    var box := Rect(e.box.x + e.box.width / 2 - 15, e.box.y, 36, 36);
    if e.kind == Medium then Item(box, e.kind, MedApple, Points, 50)
    else Item(box, e.kind, e.fruit, Power, 0)
  }

  /** `item.point || 50`: a zero point value falls back to 50. */
  function PointValue(it: Item): (v: int)
    ensures it.point >= 0 ==> v > 0
  {
    if it.point != 0 then it.point else 50
  }

  // ------------------------------------------------------------- game state

  datatype GameState = GameState(running: bool, paused: bool, gameOver: bool,
                                 score: int, lives: int, level: int, waveCount: int,
                                 bulletCount: int)

  /** The state of a page just loaded, and after `resetGame`. */
  const Initial := GameState(false, false, false, 0, 3, 1, 0, 1)

  const InvulnerableDuration := 120
  const PlayerSpeed := 5

  datatype Bullet = Bullet(box: Rect, damage: int, angle: int)
  datatype Player = Player(box: Rect, bullets: seq<Bullet>, invulnerableTime: int, bulletLevel: int)

  datatype Particle = Particle(life: int)
  datatype Explosion = Explosion(x: int, y: int, radius: int, life: int)

  /** The gun's steps: one, two, four or eight bullets per shot. */
  predicate PowerLevel(n: int) { n == 1 || n == 2 || n == 4 || n == 8 }

  function Log2(n: int): nat
    decreases n
  {
    if n <= 1 then 0 else 1 + Log2(n / 2)
  }

  /** Where the player stands on a canvas of the given size. */
  function Home(width: int, height: int): Rect {
    Rect(width / 2, height - 50, 30, 40)
  }

  /** `endGame`: the loop stops and the game is over. */
  function Ended(s: GameState): GameState {
    s.(running := false, gameOver := true)
  }

  /** A hit on the player: one life less, and the game ends at zero lives. */
  function LostLife(s: GameState): (t: GameState)
    ensures t.lives == s.lives - 1 && t.score == s.score && t.level == s.level
    ensures t.gameOver <==> s.gameOver || t.lives <= 0
    ensures t.running <==> s.running && t.lives > 0
    ensures t.paused == s.paused && t.bulletCount == s.bulletCount
  {
    var t := s.(lives := s.lives - 1);
    if t.lives <= 0 then Ended(t) else t
  }

  // --------------------------------------------------------------- shooting

  /** The spread of a shot with `count` bullets, in degrees. */
  function Angles(count: int): (r: seq<int>)
    ensures PowerLevel(count) ==> |r| == count
    ensures !PowerLevel(count) ==> r == []
  {
    if count == 1 then [0]
    else if count == 2 then [-10, 10]
    else if count == 4 then [-15, -5, 5, 15]
    else if count == 8 then [-25, -15, -5, 5, 15, 25, 35, -35]
    else []
  }

  /** The bullet fired at `angle` from the middle of the player's top edge. */
  function Fire(p: Player, angle: int): (b: Bullet)
    ensures b.damage == 1 && b.angle == angle && b.box.y + b.box.height == p.box.y
  {
    Bullet(Rect(p.box.x + p.box.width / 2 - 2, p.box.y - 10, 4, 10), 1, angle)
  }

  function Volley(p: Player, angles: seq<int>): (bs: seq<Bullet>)
    ensures |bs| == |angles|
  {
    seq(|angles|, k requires 0 <= k < |angles| => Fire(p, angles[k]))
  }

  lemma VolleySnoc(p: Player, angles: seq<int>, k: nat)
    requires k < |angles|
    ensures Volley(p, angles[..k + 1]) == Volley(p, angles[..k]) + [Fire(p, angles[k])]
  {
    var l := Volley(p, angles[..k + 1]);
    var r := Volley(p, angles[..k]) + [Fire(p, angles[k])];
    assert |l| == |r|;
    forall n | 0 <= n < |l|
      ensures l[n] == r[n]
    {
      assert angles[..k + 1][n] == angles[n];
    }
  }

  /** Where the opposite of the k-th angle of a spread sits. */
  function MirrorIndex(count: int, k: nat): nat {
    if count == 8 then [5, 4, 3, 2, 1, 0, 7, 6][k % 8]
    else if count == 4 then 3 - k % 4
    else if count == 2 then 1 - k % 2
    else 0
  }

  /** Each spread holds the opposite of each of its angles, and no angle twice. */
  lemma AnglesMirrored(count: int, k: nat)
    requires k < |Angles(count)|
    ensures MirrorIndex(count, k) < |Angles(count)|
    ensures Angles(count)[MirrorIndex(count, k)] == -Angles(count)[k]
    ensures forall j :: 0 <= j < |Angles(count)| && j != k ==> Angles(count)[j] != Angles(count)[k]
  {
  }

  /**
   * Every volley is mirror-symmetric about the vertical: for each bullet another one leaves
   * from the same spot at the opposite angle; and no two bullets of a volley coincide.
   */
  lemma VolleyMirrored(p: Player, count: int, k: nat)
    requires k < |Volley(p, Angles(count))|
    ensures Volley(p, Angles(count))[k].(angle := -Volley(p, Angles(count))[k].angle)
      in Volley(p, Angles(count))
    ensures forall j :: 0 <= j < |Volley(p, Angles(count))| && j != k ==>
      Volley(p, Angles(count))[j] != Volley(p, Angles(count))[k]
  {
    var a := Angles(count);
    var bs := Volley(p, a);
    AnglesMirrored(count, k);
    assert bs[MirrorIndex(count, k)] == bs[k].(angle := -a[k]);
  }

  // ---------------------------------------------------------- frame updates

  /** The enemies that are still on a screen of the given height. */
  function OnScreen(es: seq<Enemy>, h: int): (r: seq<Enemy>)
    ensures |r| <= |es|
  {
    if es == [] then [] else (if es[0].box.y > h then [] else [es[0]]) + OnScreen(es[1..], h)
  }

  /** Some enemy still on screen touches the player's box. */
  predicate Touches(p: Rect, es: seq<Enemy>, h: int) {
    es != [] && ((es[0].box.y <= h && Overlap(p, es[0].box)) || Touches(p, es[1..], h))
  }

  lemma {:induction false} TouchesMeans(p: Rect, es: seq<Enemy>, h: int)
    ensures Touches(p, es, h) <==> exists k :: 0 <= k < |es| && es[k].box.y <= h && Overlap(p, es[k].box)
  {
    if es != [] {
      TouchesMeans(p, es[1..], h);
      if Touches(p, es[1..], h) {
        var k :| 0 <= k < |es[1..]| && es[1..][k].box.y <= h && Overlap(p, es[1..][k].box);
        assert es[k + 1] == es[1..][k];
      }
      if exists k :: 0 <= k < |es| && es[k].box.y <= h && Overlap(p, es[k].box) {
        var k :| 0 <= k < |es| && es[k].box.y <= h && Overlap(p, es[k].box);
        if k > 0 {
          assert es[1..][k - 1] == es[k];
        }
      }
    }
  }

  lemma {:induction false} OnScreenMembers(es: seq<Enemy>, h: int)
    ensures forall e :: e in OnScreen(es, h) <==> e in es && e.box.y <= h
  {
    if es != [] {
      OnScreenMembers(es[1..], h);
      assert es == [es[0]] + es[1..];
    }
  }

  /**
   * `updateEnemyBullets` on the enemy bullets, walked from the last to the
   * first: a bullet below the screen goes, and the first one found that hits
   * the player while `armed` (not invulnerable) goes and counts as a hit;
   * after that hit the player is invulnerable, so no other bullet hits.
   */
  function Dodge(bs: seq<Rect>, p: Rect, h: int, armed: bool): (r: (seq<Rect>, bool))
    ensures |r.0| <= |bs|
    ensures r.1 ==> armed
  {
    if bs == [] then ([], false)
    else
      var rest := Dodge(bs[1..], p, h, armed);
      if bs[0].y > h then rest
      else if armed && !rest.1 && Overlap(p, bs[0]) then (rest.0, true)
      else ([bs[0]] + rest.0, rest.1)
  }

  /** The enemy bullets still on screen. */
  function Visible(bs: seq<Rect>, h: int): (r: seq<Rect>)
    ensures |r| <= |bs|
  {
    if bs == [] then [] else (if bs[0].y > h then [] else [bs[0]]) + Visible(bs[1..], h)
  }

  /**
   * A volley of enemy bullets costs at most one life: the player is hit
   * exactly when armed and some bullet on screen touches them, and then
   * exactly one of the bullets on screen is used up.
   */
  lemma {:induction false} DodgeHits(bs: seq<Rect>, p: Rect, h: int, armed: bool)
    ensures Dodge(bs, p, h, armed).1 <==> armed && exists k :: 0 <= k < |bs| && bs[k].y <= h && Overlap(p, bs[k])
    ensures |Dodge(bs, p, h, armed).0| + (if Dodge(bs, p, h, armed).1 then 1 else 0) == |Visible(bs, h)|
  {
    if bs != [] {
      DodgeHits(bs[1..], p, h, armed);
      if exists k :: 0 <= k < |bs| && bs[k].y <= h && Overlap(p, bs[k]) {
        var k :| 0 <= k < |bs| && bs[k].y <= h && Overlap(p, bs[k]);
        if k > 0 {
          assert bs[1..][k - 1] == bs[k];
        }
      }
      if exists k :: 0 <= k < |bs[1..]| && bs[1..][k].y <= h && Overlap(p, bs[1..][k]) {
        var k :| 0 <= k < |bs[1..]| && bs[1..][k].y <= h && Overlap(p, bs[1..][k]);
        assert bs[k + 1] == bs[1..][k];
      }
    }
  }

  /** An item after one frame of falling. */
  function Fall(it: Item): Item {
    it.(box := it.box.(y := it.box.y + ItemSpeed))
  }

  /** The item, once it has fallen, is still on screen and touches the player. */
  predicate Caught(it: Item, p: Rect, h: int) {
    Fall(it).box.y <= h && Overlap(p, Fall(it).box)
  }

  /** `updateItems` on the list: items that fell off or were caught go, the rest fall. */
  function Uncaught(its: seq<Item>, p: Rect, h: int): (r: seq<Item>)
    ensures |r| <= |its|
  {
    if its == [] then []
    else (if Fall(its[0]).box.y > h || Caught(its[0], p, h) then [] else [Fall(its[0])]) + Uncaught(its[1..], p, h)
  }

  /** The points the caught point items are worth. */
  function Bonus(its: seq<Item>, p: Rect, h: int): int {
    if its == [] then 0
    else (if Caught(its[0], p, h) && its[0].effect == Points then PointValue(its[0]) else 0) + Bonus(its[1..], p, h)
  }

  /** How many power items were caught. */
  function Boosts(its: seq<Item>, p: Rect, h: int): nat {
    if its == [] then 0
    else (if Caught(its[0], p, h) && its[0].effect != Points then 1 else 0) + Boosts(its[1..], p, h)
  }

  /** The item at index i-1 joins the backward walk: its share of each summary. */
  lemma ItemsStep(its: seq<Item>, i: nat, p: Rect, h: int, count: int)
    requires 0 < i <= |its|
    ensures var it := its[i - 1];
      Uncaught(its[i - 1..], p, h) == Uncaught([it], p, h) + Uncaught(its[i..], p, h)
      && Bonus(its[i - 1..], p, h) == Bonus([it], p, h) + Bonus(its[i..], p, h)
      && Boosts(its[i - 1..], p, h)
        == (if Caught(it, p, h) && it.effect != Points then 1 else 0) + Boosts(its[i..], p, h)
      && PowerUp(count, Boosts(its[i - 1..], p, h))
        == if Caught(it, p, h) && it.effect != Points
           then Min(2 * PowerUp(count, Boosts(its[i..], p, h)), 8) else PowerUp(count, Boosts(its[i..], p, h))
  {
    SuffixCons(its, i);
    assert [its[i - 1]][1..] == [];
  }

  /** The bullet count after n power items: doubled each time, at most 8. */
  function PowerUp(count: int, n: nat): int {
    if n == 0 then count else Min(2 * PowerUp(count, n - 1), 8)
  }

  /** Power-ups keep the gun on one of its four steps, 1, 2, 4 and 8. */
  lemma {:induction false} PowerUpStaysLevel(count: int, n: nat)
    requires PowerLevel(count)
    ensures PowerLevel(PowerUp(count, n))
  {
    if n > 0 {
      PowerUpStaysLevel(count, n - 1);
    }
  }

  /** From a single bullet, n power items give 1, 2, 4, then 8 for good. */
  lemma {:induction false} PowerUpFromOne(n: nat)
    ensures PowerUp(1, n) == [1, 2, 4, 8][Min(n, 3)]
  {
    if n > 0 {
      PowerUpFromOne(n - 1);
    }
  }

  /** Points are never taken away by the items. */
  lemma {:induction false} BonusNonNegative(its: seq<Item>, p: Rect, h: int)
    requires forall k :: 0 <= k < |its| ==> its[k].point >= 0
    ensures Bonus(its, p, h) >= 0
  {
    if its != [] {
      assert forall k :: 0 <= k < |its[1..]| ==> its[1..][k] == its[k + 1];
      BonusNonNegative(its[1..], p, h);
    }
  }

  /**
   * The loop of `updateItems`, from the last item to the first, on the
   * item list, the score, the bullet count and the bullet level.
   */
  method WalkItems(items: seq<Item>, p: Rect, h: int, score0: int, count0: int, level0: int)
    returns (its: seq<Item>, score: int, count: int, level: int)
    ensures its == Uncaught(items, p, h)
    ensures score == score0 + Bonus(items, p, h)
    ensures count == PowerUp(count0, Boosts(items, p, h))
    ensures level == if Boosts(items, p, h) == 0 then level0 else Log2(count) + 1
  {
    its, score, count, level := items, score0, count0, level0;
    var i := |its|;
    while i > 0
      invariant 0 <= i <= |items|
      invariant its == items[..i] + Uncaught(items[i..], p, h)
      invariant score == score0 + Bonus(items[i..], p, h)
      invariant count == PowerUp(count0, Boosts(items[i..], p, h))
      invariant level == if Boosts(items[i..], p, h) == 0
                         then level0 else Log2(count) + 1
    {
      ItemsStep(items, i, p, h, count0);
      var item := its[i - 1];
      assert item == items[i - 1];
      item := item.(box := item.box.(y := item.box.y + ItemSpeed));
      assert item == Fall(items[i - 1]);
      if item.box.y > h {
        SpliceOut(items, i, Uncaught(items[i..], p, h), its);
        its := its[..i - 1] + its[i..];
      } else if Overlap(p, item.box) {
        if item.effect == Points {
          score := score + PointValue(item);
        } else {
          count := Min(count * 2, 8);
          level := Log2(count) + 1;
        }
        SpliceOut(items, i, Uncaught(items[i..], p, h), its);
        its := its[..i - 1] + its[i..];
      } else {
        SpliceOver(items, i, Uncaught(items[i..], p, h), its, item);
        its := its[i - 1 := item];
      }
      i := i - 1;
    }
    assert items[0..] == items;
  }

  // ------------------------------------------------ player bullets vs enemies

  /**
   * What `checkBulletCollisions` works on: the player's bullets, the
   * enemies, the score, the items, and how many enemies it has destroyed so
   * far (the index of the next drop draw).
   */
  datatype Melee = Melee(bullets: seq<Bullet>, enemies: seq<Enemy>, score: int, items: seq<Item>, kills: nat)

  /** The last of es[..j] that box b touches, as the backward scan finds it. */
  function LastHit(b: Rect, es: seq<Enemy>, j: nat): (r: Option<nat>)
    requires j <= |es|
    ensures r.Some? ==> r.value < j && Overlap(b, es[r.value].box)
    ensures r.Some? ==> forall k :: r.value < k < j ==> !Overlap(b, es[k].box)
    ensures r.None? ==> forall k :: 0 <= k < j ==> !Overlap(b, es[k].box)
  {
    if j == 0 then None
    else if Overlap(b, es[j - 1].box) then Some(j - 1)
    else LastHit(b, es, j - 1)
  }

  /**
   * Bullet i against the enemies: it damages the last enemy it touches and
   * is used up; that enemy is destroyed, scored and maybe leaves an item
   * (`roll` stands for the 30% draws) once its health reaches zero.
   */
  function Strike(m: Melee, i: nat, roll: nat -> bool): (r: Melee)
    requires i < |m.bullets|
    ensures |r.bullets| >= |m.bullets| - 1 && r.bullets[..i] == m.bullets[..i]
  {
    var b := m.bullets[i];
    match LastHit(b.box, m.enemies, |m.enemies|)
    case None => m
    case Some(j) =>
      var e := m.enemies[j].(health := m.enemies[j].health - b.damage);
      var bs := m.bullets[..i] + m.bullets[i + 1..];
      assert bs[..i] == m.bullets[..i];
      if e.health <= 0 then
        var its := if roll(m.kills) then m.items + [DropItem(e)] else m.items;
        Melee(bs, m.enemies[..j] + m.enemies[j + 1..], m.score + e.score, its, m.kills + 1)
      else
        Melee(bs, m.enemies[j := e], m.score, m.items, m.kills)
  }

  /** The bullets at indexes i-1 down to 0, each against the enemies. */
  function Strikes(m: Melee, i: nat, roll: nat -> bool): Melee
    requires i <= |m.bullets|
    decreases i
  {
    if i == 0 then m else Strikes(Strike(m, i - 1, roll), i - 1, roll)
  }

  lemma StrikesStep(m: Melee, i: nat, roll: nat -> bool)
    requires i < |m.bullets|
    ensures Strikes(m, i + 1, roll) == Strikes(Strike(m, i, roll), i, roll)
  {
  }

  /** Live enemies with a score that only adds. */
  predicate Healthy(es: seq<Enemy>) {
    forall k :: 0 <= k < |es| ==> es[k].health > 0 && es[k].score >= 0
  }

  predicate PointsOk(its: seq<Item>) {
    forall k :: 0 <= k < |its| ==> its[k].point >= 0
  }

  /**
   * A bullet that touches no enemy changes nothing; one that touches an
   * enemy is used up and affects that enemy alone: it is either damaged in
   * place or, and then only, removed with its score added.
   */
  lemma {:induction false} StrikeOneEnemy(m: Melee, i: nat, roll: nat -> bool)
    requires i < |m.bullets|
    ensures Strike(m, i, roll) == m <==>
      forall k :: 0 <= k < |m.enemies| ==> !Overlap(m.bullets[i].box, m.enemies[k].box)
    ensures Strike(m, i, roll) != m ==> Strike(m, i, roll).bullets == m.bullets[..i] + m.bullets[i + 1..]
    ensures var r := Strike(m, i, roll); var b := m.bullets[i];
      r != m ==>
        exists j :: 0 <= j < |m.enemies| && Overlap(b.box, m.enemies[j].box) &&
          if m.enemies[j].health - b.damage > 0
          then r.enemies == m.enemies[j := m.enemies[j].(health := m.enemies[j].health - b.damage)]
               && r.score == m.score && r.kills == m.kills
          else r.enemies == m.enemies[..j] + m.enemies[j + 1..]
               && r.score == m.score + m.enemies[j].score && r.kills == m.kills + 1
  {
    var r := Strike(m, i, roll);
    match LastHit(m.bullets[i].box, m.enemies, |m.enemies|)
    case None =>
    case Some(j) =>
      assert |r.bullets| < |m.bullets|;
  }

  /**
   * The inner loop of `checkBulletCollisions` for bullet i: the enemies
   * from the last to the first until the bullet touches one, which it then
   * damages or destroys.
   */
  method Aim(m: Melee, i: nat, roll: nat -> bool) returns (r: Melee)
    requires i < |m.bullets|
    ensures r == Strike(m, i, roll)
  {
    var bullet := m.bullets[i];
    var j := |m.enemies|;
    while j > 0
      invariant 0 <= j <= |m.enemies|
      invariant LastHit(bullet.box, m.enemies, |m.enemies|) == LastHit(bullet.box, m.enemies, j)
    {
      j := j - 1;
      var enemy := m.enemies[j];
      if Overlap(bullet.box, enemy.box) {
        enemy := enemy.(health := enemy.health - bullet.damage);
        var bullets := m.bullets[..i] + m.bullets[i + 1..];
        if enemy.health <= 0 {
          var drops := m.items;
          if roll(m.kills) {
            drops := drops + [DropItem(enemy)];
          }
          return Melee(bullets, m.enemies[..j] + m.enemies[j + 1..], m.score + enemy.score, drops, m.kills + 1);
        }
        return Melee(bullets, m.enemies[j := enemy], m.score, m.items, m.kills);
      }
    }
    return m;
  }

  /**
   * What a pass of bullets keeps between melee m and the later melee r:
   * every destroyed enemy used up at least one bullet, the kill count is
   * the number of enemies gone, items are only added and at most one per
   * kill, and a live field stays alive while the score only grows.
   */
  predicate Accounts(m: Melee, r: Melee) {
    |m.bullets| - |r.bullets| >= |m.enemies| - |r.enemies| >= 0
    && r.kills - m.kills == |m.enemies| - |r.enemies|
    && |m.items| <= |r.items| <= |m.items| + (r.kills - m.kills)
    && r.items[..|m.items|] == m.items
    && (Healthy(m.enemies) && PointsOk(m.items) ==> Healthy(r.enemies) && PointsOk(r.items) && r.score >= m.score)
  }

  lemma AccountsChain(a: Melee, b: Melee, c: Melee)
    requires Accounts(a, b) && Accounts(b, c)
    ensures Accounts(a, c)
  {
    assert c.items[..|b.items|][..|a.items|] == c.items[..|a.items|];
  }

  /** Accounts holds of the whole pass over bullets i-1 down to 0. */
  lemma {:induction false} StrikesAccount(m: Melee, i: nat, roll: nat -> bool)
    requires i <= |m.bullets|
    ensures Accounts(m, Strikes(m, i, roll))
    decreases i
  {
    if i > 0 {
      var s := Strike(m, i - 1, roll);
      StrikeKeeps(m, i - 1, roll);
      StrikesAccount(s, i - 1, roll);
      AccountsChain(m, s, Strikes(s, i - 1, roll));
    } else {
      assert m.items[..|m.items|] == m.items;
    }
  }

  /** Accounts holds of a single bullet. */
  lemma {:induction false} StrikeKeeps(m: Melee, i: nat, roll: nat -> bool)
    requires i < |m.bullets|
    ensures Accounts(m, Strike(m, i, roll))
  {
    var r := Strike(m, i, roll);
    match LastHit(m.bullets[i].box, m.enemies, |m.enemies|)
    case None =>
      assert r.items[..|m.items|] == m.items;
    case Some(j) =>
      assert r.items[..|m.items|] == m.items;
      if Healthy(m.enemies) && PointsOk(m.items) {
        var e := m.enemies[j].(health := m.enemies[j].health - m.bullets[i].damage);
        if e.health <= 0 {
          assert forall k :: 0 <= k < |r.enemies| ==> r.enemies[k] == if k < j then m.enemies[k] else m.enemies[k + 1];
        }
      }
  }
  // ------------------------------------------------- particles and explosions

  /** One frame of aging: `step` each element and keep those `alive` after it. */
  function Survivors<T>(xs: seq<T>, step: T -> T, alive: T -> bool): (r: seq<T>)
    ensures |r| <= |xs|
  {
    if xs == [] then []
    else (if alive(step(xs[0])) then [step(xs[0])] else []) + Survivors(xs[1..], step, alive)
  }

  /** What is left after aging is exactly the aged elements still alive, in order. */
  lemma {:induction false} SurvivorsMembers<T>(xs: seq<T>, step: T -> T, alive: T -> bool)
    ensures forall y :: y in Survivors(xs, step, alive) <==> alive(y) && exists k :: 0 <= k < |xs| && y == step(xs[k])
  {
    if xs != [] {
      SurvivorsMembers(xs[1..], step, alive);
      forall y
        ensures y in Survivors(xs, step, alive) <==> alive(y) && exists k :: 0 <= k < |xs| && y == step(xs[k])
      {
        if y in Survivors(xs[1..], step, alive) {
          var k :| 0 <= k < |xs[1..]| && y == step(xs[1..][k]);
          assert y == step(xs[k + 1]);
        }
        if alive(y) && exists k :: 0 <= k < |xs| && y == step(xs[k]) {
          var k :| 0 <= k < |xs| && y == step(xs[k]);
          if k > 0 {
            assert y == step(xs[1..][k - 1]);
          }
        }
      }
    }
  }

  function Age(p: Particle): Particle { p.(life := p.life - 1) }
  predicate Glows(p: Particle) { p.life > 0 }

  function Burn(x: Explosion): Explosion { x.(radius := x.radius + 2, life := x.life - 1) }
  predicate Burning(x: Explosion) { x.life > 0 }

  // ------------------------------------------------ backward-splice bookkeeping

  /** Removing element i-1 of `xs[..i] + rest` leaves `xs[..i-1] + rest`. */
  lemma SpliceOut<T>(xs: seq<T>, i: nat, rest: seq<T>, cur: seq<T>)
    requires 0 < i <= |xs| && cur == xs[..i] + rest
    ensures cur[..i - 1] + cur[i..] == xs[..i - 1] + rest
  {
    assert cur[..i - 1] == xs[..i - 1];
    assert cur[i..] == rest;
  }

  /** Overwriting element i-1 of `xs[..i] + rest` with y gives `xs[..i-1] + ([y] + rest)`. */
  lemma SpliceOver<T>(xs: seq<T>, i: nat, rest: seq<T>, cur: seq<T>, y: T)
    requires 0 < i <= |xs| && cur == xs[..i] + rest
    ensures cur[i - 1 := y] == xs[..i - 1] + ([y] + rest)
  {
    var lhs := cur[i - 1 := y];
    var rhs := xs[..i - 1] + ([y] + rest);
    assert |lhs| == |rhs|;
    forall k | 0 <= k < |lhs|
      ensures lhs[k] == rhs[k]
    {
      if k >= i {
        assert lhs[k] == cur[k] == rest[k - i];
      }
    }
  }

  lemma SuffixCons<T>(xs: seq<T>, i: nat)
    requires 0 < i <= |xs|
    ensures xs[i - 1..] != [] && xs[i - 1..][0] == xs[i - 1] && xs[i - 1..][1..] == xs[i..]
  {
  }

  // ------------------------------------------------------------------- game

  class Game {
    const width: int
    const height: int
    var state: GameState
    var player: Player
    var enemies: seq<Enemy>
    var enemyBullets: seq<Rect>
    var items: seq<Item>
    var particles: seq<Particle>
    var explosions: seq<Explosion>

    /**
     * What every operation keeps: the gun is on one of its four steps and
     * `bulletLevel` names that step, the invulnerability timer is within
     * its range, the level starts at 1, only a running game can be paused,
     * a finished game is not running, enemies on the field are alive with a
     * score, and items are worth no negative points.
     */
    predicate Valid()
      reads this
    {
      PowerLevel(state.bulletCount) && player.bulletLevel == Log2(state.bulletCount) + 1 &&
      0 <= player.invulnerableTime <= InvulnerableDuration && state.level >= 1 &&
      (state.paused ==> state.running) && (state.gameOver ==> !state.running) &&
      Healthy(enemies) && PointsOk(items)
    }

    /** The page as loaded: the initial state, the player at home, nothing on the field. */
    constructor (width: int, height: int)
      ensures Valid()
      ensures this.width == width && this.height == height
      ensures state == Initial && player == Player(Home(width, height), [], 0, 1)
      ensures enemies == [] && enemyBullets == [] && items == [] && particles == [] && explosions == []
    {
      this.width := width;
      this.height := height;
      state := Initial;
      player := Player(Home(width, height), [], 0, 1);
      enemies := [];
      enemyBullets := [];
      items := [];
      particles := [];
      explosions := [];
    }

    /** The assignments of `startGame` before its first frame: only a stopped game starts. */
    method Launch()
      requires Valid()
      modifies this
      ensures Valid()
      ensures state == if old(state.running) then old(state)
                       else old(state).(running := true, paused := false, gameOver := false)
      ensures player == old(player) && enemies == old(enemies) && enemyBullets == old(enemyBullets)
      ensures items == old(items) && particles == old(particles) && explosions == old(explosions)
    {
      if !state.running {
        state := state.(running := true, paused := false, gameOver := false);
      }
    }

    /** `pauseGame`: only a running, unpaused game pauses. */
    method Pause()
      requires Valid()
      modifies this
      ensures Valid()
      ensures state == if old(state.running && !state.paused) then old(state).(paused := true) else old(state)
      ensures player == old(player) && enemies == old(enemies) && enemyBullets == old(enemyBullets)
      ensures items == old(items) && particles == old(particles) && explosions == old(explosions)
    {
      if state.running && !state.paused {
        state := state.(paused := true);
      }
    }

    /** The assignment of `resumeGame` before its frame: only a paused game resumes. */
    method Unpause()
      requires Valid()
      modifies this
      ensures Valid()
      ensures state == if old(state.paused) then old(state).(paused := false) else old(state)
      ensures player == old(player) && enemies == old(enemies) && enemyBullets == old(enemyBullets)
      ensures items == old(items) && particles == old(particles) && explosions == old(explosions)
    {
      if state.paused {
        state := state.(paused := false);
      }
    }

    /** `resetGame`: back to the state of a page just loaded. */
    method Reset()
      modifies this
      ensures Valid()
      ensures state == Initial
      ensures player == old(player).(box := old(player.box).(x := width / 2, y := height - 50),
                                     bullets := [], invulnerableTime := 0, bulletLevel := 1)
      ensures enemies == [] && enemyBullets == [] && items == [] && particles == [] && explosions == []
    {
      state := Initial;
      player := player.(box := player.box.(x := width / 2, y := height - 50),
                        bullets := [], invulnerableTime := 0, bulletLevel := 1);
      enemies := [];
      enemyBullets := [];
      items := [];
      particles := [];
      explosions := [];
    }

    /**
     * The assignments of `nextLevel` before its first frame: one level up,
     * running again, with the field cleared of bullets, enemies and effects;
     * score, lives, gun and falling items stay.
     */
    method Advance()
      requires Valid()
      modifies this
      ensures Valid()
      ensures state == old(state).(level := old(state.level) + 1, waveCount := 0,
                                   running := true, paused := false, gameOver := false)
      ensures player == old(player).(bullets := [])
      ensures enemies == [] && enemyBullets == [] && particles == [] && explosions == []
      ensures items == old(items)
    {
      state := state.(level := state.level + 1, waveCount := 0);
      state := state.(running := true, paused := false, gameOver := false);
      player := player.(bullets := []);
      enemies := [];
      enemyBullets := [];
      particles := [];
      explosions := [];
    }

    /** `endGame`. Called only from the frame updates, so never while paused. */
    method EndGame()
      requires Valid() && !state.paused
      modifies this
      ensures Valid()
      ensures state == Ended(old(state))
      ensures player == old(player) && enemies == old(enemies) && enemyBullets == old(enemyBullets)
      ensures items == old(items) && particles == old(particles) && explosions == old(explosions)
    {
      state := Ended(state);
    }

    /**
     * `checkLevelCompletion`: 1000 points per level and an empty field stop
     * the loop. Called only from the frame updates, so never while paused.
     */
    method CheckLevelCompletion()
      requires Valid() && !state.paused
      modifies this
      ensures Valid()
      ensures state == if old(state.score) >= 1000 * old(state.level) && old(enemies) == []
                       then old(state).(running := false) else old(state)
      ensures player == old(player) && enemies == old(enemies) && enemyBullets == old(enemyBullets)
      ensures items == old(items) && particles == old(particles) && explosions == old(explosions)
    {
      if state.score >= 1000 * state.level && |enemies| == 0 {
        state := state.(running := false);
      }
    }

    /** `playerShoot`: one bullet per angle of the current spread. */
    method PlayerShoot()
      requires Valid()
      modifies this
      ensures Valid()
      ensures player == old(player).(bullets := old(player.bullets) + Volley(old(player), Angles(state.bulletCount)))
      ensures |player.bullets| == |old(player.bullets)| + state.bulletCount
      ensures state == old(state) && enemies == old(enemies) && enemyBullets == old(enemyBullets)
      ensures items == old(items) && particles == old(particles) && explosions == old(explosions)
    {
      var angles := Angles(state.bulletCount);
      var k := 0;
      while k < |angles|
        invariant 0 <= k <= |angles|
        invariant player == old(player).(bullets := old(player.bullets) + Volley(old(player), angles[..k]))
        invariant state == old(state) && enemies == old(enemies) && enemyBullets == old(enemyBullets)
        invariant items == old(items) && particles == old(particles) && explosions == old(explosions)
      {
        VolleySnoc(old(player), angles, k);
        player := player.(bullets := player.bullets + [Fire(player, angles[k])]);
        k := k + 1;
      }
      assert angles[..k] == angles;
    }

    /** The space bar shoots unless the game is over or paused. */
    method OnSpace()
      requires Valid()
      modifies this
      ensures Valid()
      ensures player.bullets == if old(!state.gameOver && !state.paused)
                                then old(player.bullets) + Volley(old(player), Angles(state.bulletCount))
                                else old(player.bullets)
      ensures state == old(state) && enemies == old(enemies) && items == old(items)
    {
      if !state.gameOver && !state.paused {
        PlayerShoot();
      }
    }

    /** A click on the canvas shoots only in a running, unpaused game. */
    method OnClick()
      requires Valid()
      modifies this
      ensures Valid()
      ensures player.bullets == if old(state.running && !state.paused && !state.gameOver)
                                then old(player.bullets) + Volley(old(player), Angles(state.bulletCount))
                                else old(player.bullets)
      ensures state == old(state) && enemies == old(enemies) && items == old(items)
    {
      if state.running && !state.paused && !state.gameOver {
        PlayerShoot();
      }
    }

    /**
     * The mouse moves the player (centred on `offset`, the pointer's
     * distance from the canvas' left edge) in a running, unpaused game,
     * always keeping it on the canvas.
     */
    method MouseMove(offset: int)
      requires Valid()
      modifies this
      ensures Valid()
      ensures player == if old(state.running && !state.paused)
                        then old(player).(box := old(player.box).(x := Clamp(offset - old(player.box.width) / 2, width - old(player.box.width))))
                        else old(player)
      ensures state == old(state) && enemies == old(enemies) && items == old(items)
    {
      if state.running && !state.paused {
        var x := offset - player.box.width / 2;
        player := player.(box := player.box.(x := Clamp(x, width - player.box.width)));
      }
    }

    /**
     * `updatePlayer`, except for the flight of the player's bullets: the
     * arrow keys move the player by 5 within the canvas, and the
     * invulnerability timer counts down to zero.
     */
    method UpdatePlayer(left: bool, right: bool)
      requires Valid()
      modifies this
      ensures Valid()
      ensures var x := old(player.box.x) - (if left then PlayerSpeed else 0) + (if right then PlayerSpeed else 0);
        player == old(player).(box := old(player.box).(x := Clamp(x, width - old(player.box.width))),
                               invulnerableTime := Max(old(player.invulnerableTime) - 1, 0))
      ensures state == old(state) && enemies == old(enemies) && enemyBullets == old(enemyBullets)
      ensures items == old(items) && particles == old(particles) && explosions == old(explosions)
    {
      var x := player.box.x;
      if left {
        x := x - PlayerSpeed;
      }
      if right {
        x := x + PlayerSpeed;
      }
      player := player.(box := player.box.(x := Clamp(x, width - player.box.width)));
      if player.invulnerableTime > 0 {
        player := player.(invulnerableTime := player.invulnerableTime - 1);
      }
    }

    /** `spawnEnemy`, given the random draws: no spawning while paused or over. */
    method Spawn(a: Arrival)
      requires Valid()
      modifies this
      ensures Valid()
      ensures enemies == if old(state.paused || state.gameOver) then old(enemies)
                         else old(enemies) + [NewEnemy(SpawnKind(state.level, state.score, a.pick, a.bossRoll), a.x)]
      ensures (!old(state.paused || state.gameOver)
               && InLane(a.x, SpawnKind(old(state.level), old(state.score), a.pick, a.bossRoll), width))
        ==> var e := enemies[|enemies| - 1]; 0 <= e.box.x && e.box.x + e.box.width < width
      ensures state == old(state) && player == old(player) && enemyBullets == old(enemyBullets)
      ensures items == old(items) && particles == old(particles) && explosions == old(explosions)
    {
      if !(state.paused || state.gameOver) {
        var e := NewEnemy(SpawnKind(state.level, state.score, a.pick, a.bossRoll), a.x);
        enemies := enemies + [e];
      }
    }

    /**
     * The loop of `updateEnemies`, walked from the last enemy to the first:
     * enemies below the screen go, and an enemy touching a player who is not
     * invulnerable costs a life. The walk works on copies of the list, the
     * game state and the player and stores them back at the end; nothing
     * else runs in between.
     */
    method UpdateEnemies()
      requires Valid() && !state.paused
      modifies this
      ensures Valid()
      ensures enemies == OnScreen(old(enemies), height)
      ensures if old(player.invulnerableTime) == 0 && Touches(old(player.box), old(enemies), height)
              then state == LostLife(old(state)) && player == old(player).(invulnerableTime := InvulnerableDuration)
              else state == old(state) && player == old(player)
      ensures enemyBullets == old(enemyBullets) && items == old(items)
      ensures particles == old(particles) && explosions == old(explosions)
    {
      var es, st, pl := enemies, state, player;
      var i := |es|;
      while i > 0
        invariant 0 <= i <= |enemies|
        modifies {}
        invariant es == enemies[..i] + OnScreen(enemies[i..], height)
        invariant if player.invulnerableTime == 0 && Touches(player.box, enemies[i..], height)
                  then st == LostLife(state) && pl == player.(invulnerableTime := InvulnerableDuration)
                  else st == state && pl == player
      {
        SuffixCons(enemies, i);
        var enemy := es[i - 1];
        assert enemy == enemies[i - 1];
        if enemy.box.y > height {
          SpliceOut(enemies, i, OnScreen(enemies[i..], height), es);
          es := es[..i - 1] + es[i..];
        } else {
          SpliceOver(enemies, i, OnScreen(enemies[i..], height), es, enemy);
          assert es[i - 1 := enemy] == es;
          if Overlap(pl.box, enemy.box) && pl.invulnerableTime == 0 {
            st := LostLife(st);
            pl := pl.(invulnerableTime := InvulnerableDuration);
          }
        }
        i := i - 1;
      }
      assert enemies[0..] == enemies;
      OnScreenMembers(enemies, height);
      enemies, state, player := es, st, pl;
    }

    /**
     * `updateEnemyBullets`, except for the bullets' flight: bullets below
     * the screen go, and one hitting a player who is not invulnerable goes
     * and costs a life.
     */
    method UpdateEnemyBullets()
      requires Valid() && !state.paused
      modifies this
      ensures Valid()
      ensures var d := Dodge(old(enemyBullets), old(player.box), height, old(player.invulnerableTime) == 0);
        enemyBullets == d.0 &&
        if d.1 then state == LostLife(old(state)) && player == old(player).(invulnerableTime := InvulnerableDuration)
        else state == old(state) && player == old(player)
      ensures enemies == old(enemies) && items == old(items)
      ensures particles == old(particles) && explosions == old(explosions)
    {
      ghost var armed := player.invulnerableTime == 0;
      var bs, st, pl := enemyBullets, state, player;
      var i := |bs|;
      while i > 0
        invariant 0 <= i <= |enemyBullets|
        modifies {}
        invariant bs == enemyBullets[..i] + Dodge(enemyBullets[i..], player.box, height, armed).0
        invariant if Dodge(enemyBullets[i..], player.box, height, armed).1
                  then st == LostLife(state) && pl == player.(invulnerableTime := InvulnerableDuration)
                  else st == state && pl == player
      {
        SuffixCons(enemyBullets, i);
        var bullet := bs[i - 1];
        assert bullet == enemyBullets[i - 1];
        ghost var rest := Dodge(enemyBullets[i..], player.box, height, armed);
        if bullet.y > height {
          SpliceOut(enemyBullets, i, rest.0, bs);
          bs := bs[..i - 1] + bs[i..];
        } else if Overlap(pl.box, bullet) && pl.invulnerableTime == 0 {
          SpliceOut(enemyBullets, i, rest.0, bs);
          bs := bs[..i - 1] + bs[i..];
          st := LostLife(st);
          pl := pl.(invulnerableTime := InvulnerableDuration);
        } else {
          SpliceOver(enemyBullets, i, rest.0, bs, bullet);
          assert bs[i - 1 := bullet] == bs;
        }
        i := i - 1;
      }
      assert enemyBullets[0..] == enemyBullets;
      enemyBullets, state, player := bs, st, pl;
    }

    /**
     * `updateItems`: every item falls; items below the screen go; a caught
     * point item adds its points, a caught power item doubles the gun up to
     * eight bullets; caught items go.
     */
    method UpdateItems()
      requires Valid()
      modifies this
      ensures Valid()
      ensures items == Uncaught(old(items), old(player.box), height)
      ensures state.score == old(state.score) + Bonus(old(items), old(player.box), height)
      ensures state.bulletCount == PowerUp(old(state.bulletCount), Boosts(old(items), old(player.box), height))
      ensures player.bulletLevel == if Boosts(old(items), old(player.box), height) == 0
                                    then old(player.bulletLevel) else Log2(state.bulletCount) + 1
      ensures state == old(state).(score := state.score, bulletCount := state.bulletCount)
      ensures player == old(player).(bulletLevel := player.bulletLevel)
      ensures state.score >= old(state.score)
      ensures enemies == old(enemies) && enemyBullets == old(enemyBullets)
      ensures particles == old(particles) && explosions == old(explosions)
    {
      var its, score, count, level := WalkItems(items, player.box, height, state.score, state.bulletCount, player.bulletLevel);
      assert PowerLevel(count) && PointsOk(its) && score >= state.score by {
        PowerUpStaysLevel(state.bulletCount, Boosts(items, player.box, height));
        UncaughtPoints(items, player.box, height);
        BonusNonNegative(items, player.box, height);
      }
      items := its;
      state := state.(score := score, bulletCount := count);
      player := player.(bulletLevel := level);
    }

    /**
     * `checkBulletCollisions`: the player's bullets from the last to the
     * first, each against the enemies as `Strikes` describes; `roll(n)` is
     * the drop draw of the n-th kill.
     */
    method CheckBulletCollisions(roll: nat -> bool)
      requires Valid()
      modifies this
      ensures Valid()
      ensures var m := Strikes(Melee(old(player.bullets), old(enemies), old(state.score), old(items), 0),
                               |old(player.bullets)|, roll);
        player == old(player).(bullets := m.bullets) && enemies == m.enemies &&
        state == old(state).(score := m.score) && items == m.items
      ensures state.score >= old(state.score)
      ensures enemyBullets == old(enemyBullets) && particles == old(particles) && explosions == old(explosions)
    {
      var m := Melee(player.bullets, enemies, state.score, items, 0);
      ghost var goal := Strikes(m, |m.bullets|, roll);
      StrikesAccount(m, |m.bullets|, roll);
      var i := |m.bullets|;
      while i > 0
        invariant 0 <= i <= |m.bullets|
        modifies {}
        invariant Strikes(m, i, roll) == goal
      {
        i := i - 1;
        StrikesStep(m, i, roll);
        m := Aim(m, i, roll);
      }
      player := player.(bullets := m.bullets);
      enemies := m.enemies;
      state := state.(score := m.score);
      items := m.items;
    }

    /** `updateParticles`: every particle ages one frame; dead ones go. */
    method UpdateParticles()
      modifies this
      ensures particles == Survivors(old(particles), Age, Glows)
      ensures state == old(state) && player == old(player) && enemies == old(enemies)
      ensures enemyBullets == old(enemyBullets) && items == old(items) && explosions == old(explosions)
    {
      var ps := particles;
      var i := |ps|;
      while i > 0
        invariant 0 <= i <= |particles|
        modifies {}
        invariant ps == particles[..i] + Survivors(particles[i..], Age, Glows)
      {
        SuffixCons(particles, i);
        var p := ps[i - 1];
        assert p == particles[i - 1];
        p := p.(life := p.life - 1);
        if p.life <= 0 {
          SpliceOut(particles, i, Survivors(particles[i..], Age, Glows), ps);
          ps := ps[..i - 1] + ps[i..];
        } else {
          SpliceOver(particles, i, Survivors(particles[i..], Age, Glows), ps, p);
          ps := ps[i - 1 := p];
        }
        i := i - 1;
      }
      assert particles[0..] == particles;
      particles := ps;
    }

    /** `updateExplosions`: every explosion grows by 2 and ages one frame; spent ones go. */
    method UpdateExplosions()
      modifies this
      ensures explosions == Survivors(old(explosions), Burn, Burning)
      ensures state == old(state) && player == old(player) && enemies == old(enemies)
      ensures enemyBullets == old(enemyBullets) && items == old(items) && particles == old(particles)
    {
      var xs := explosions;
      var i := |xs|;
      while i > 0
        invariant 0 <= i <= |explosions|
        modifies {}
        invariant xs == explosions[..i] + Survivors(explosions[i..], Burn, Burning)
      {
        SuffixCons(explosions, i);
        var x := xs[i - 1];
        assert x == explosions[i - 1];
        x := x.(radius := x.radius + 2, life := x.life - 1);
        if x.life <= 0 {
          SpliceOut(explosions, i, Survivors(explosions[i..], Burn, Burning), xs);
          xs := xs[..i - 1] + xs[i..];
        } else {
          SpliceOver(explosions, i, Survivors(explosions[i..], Burn, Burning), xs, x);
          xs := xs[i - 1 := x];
        }
        i := i - 1;
      }
      assert explosions[0..] == explosions;
      explosions := xs;
    }
    /**
     * One frame of `gameLoop`: nothing happens unless the game is running
     * and not paused; otherwise the updates run in the loop's order. A
     * frame costs at most one life, never lowers the score and never
     * changes the level.
     */
    method Tick(left: bool, right: bool, arrival: Option<Arrival>, roll: nat -> bool)
      requires Valid()
      modifies this
      ensures Valid()
      ensures !old(state.running) || old(state.paused) ==>
        state == old(state) && player == old(player) && enemies == old(enemies) &&
        enemyBullets == old(enemyBullets) && items == old(items) &&
        particles == old(particles) && explosions == old(explosions)
      ensures old(state.lives) - 1 <= state.lives <= old(state.lives)
      ensures state.score >= old(state.score) && state.level == old(state.level)
    {
      if !state.running || state.paused {
        return;
      }
      UpdatePlayer(left, right);
      if arrival.Some? {
        Spawn(arrival.value);
      }
      var lives0 := state.lives;
      UpdateEnemies();
      assert state.lives < lives0 ==> player.invulnerableTime != 0;
      UpdateEnemyBullets();
      UpdateItems();
      CheckBulletCollisions(roll);
      UpdateParticles();
      UpdateExplosions();
      CheckLevelCompletion();
    }

    /**
     * `startGame`: a stopped game is launched and plays its first frame at once, through
     * `gameLoop()`; a game already running is left alone.
     */
    method Start(left: bool, right: bool, arrival: Option<Arrival>, roll: nat -> bool)
      requires Valid()
      modifies this
      ensures Valid()
      ensures old(state.running) ==>
        state == old(state) && player == old(player) && enemies == old(enemies) &&
        enemyBullets == old(enemyBullets) && items == old(items) &&
        particles == old(particles) && explosions == old(explosions)
      ensures !old(state.running) ==>
        old(state.lives) - 1 <= state.lives <= old(state.lives) &&
        state.score >= old(state.score) && state.level == old(state.level)
    {
      if !state.running {
        Launch();
        Tick(left, right, arrival, roll);
      }
    }

    /** `resumeGame`: a paused game is unpaused and plays a frame at once. */
    method Resume(left: bool, right: bool, arrival: Option<Arrival>, roll: nat -> bool)
      requires Valid()
      modifies this
      ensures Valid()
      ensures !old(state.paused) ==>
        state == old(state) && player == old(player) && enemies == old(enemies) &&
        enemyBullets == old(enemyBullets) && items == old(items) &&
        particles == old(particles) && explosions == old(explosions)
      ensures old(state.paused) ==>
        old(state.lives) - 1 <= state.lives <= old(state.lives) &&
        state.score >= old(state.score) && state.level == old(state.level)
    {
      if state.paused {
        Unpause();
        Tick(left, right, arrival, roll);
      }
    }

    /**
     * `nextLevel`: the level goes up, the field is cleared, and the first frame of the new
     * level is played at once; that frame starts on a field with no enemy and no bullet.
     */
    method NextLevel(left: bool, right: bool, arrival: Option<Arrival>, roll: nat -> bool)
      requires Valid()
      modifies this
      ensures Valid()
      ensures state.level == old(state.level) + 1
      ensures old(state.lives) - 1 <= state.lives <= old(state.lives) && state.score >= old(state.score)
    {
      Advance();
      Tick(left, right, arrival, roll);
    }
  }

  /** Items that keep falling keep their point values. */
  lemma {:induction false} UncaughtPoints(its: seq<Item>, p: Rect, h: int)
    requires PointsOk(its)
    ensures PointsOk(Uncaught(its, p, h))
  {
    if its != [] {
      assert forall k :: 0 <= k < |its[1..]| ==> its[1..][k] == its[k + 1];
      UncaughtPoints(its[1..], p, h);
    }
  }
}
