/** What the engine keeps true of the entities it has created and of the lists
    that hold them, stated over the lists and sets themselves. */
module Registry {
  import opened MathUtils
  import opened Sequences
  import opened Enemies
  import opened Turrets
  import opened Mortars
  import opened GlueBullets

  /** Every enemy flagged for teleporting belongs to the set. */
  ghost predicate TeleportsWithin(s: seq<(Enemy, real)>, u: set<Enemy>) {
    forall i :: 0 <= i < |s| ==> s[i].0 in u
  }

  ghost predicate EnemiesValid(u: set<Enemy>)
    reads u
  {
    forall e {:trigger e.Valid()} :: e in u ==> e.Valid()
  }

  ghost predicate TurretsValid(u: set<Turret>)
    reads u
  {
    forall t {:trigger t.Valid()} :: t in u ==> t.Valid()
  }

  /** Every mortar keeps its invariant and belongs to one of the turrets. */
  ghost predicate MortarsValid(u: set<Mortar>, turrets: set<Turret>)
    reads u
  {
    forall m {:trigger m.Valid()} :: m in u ==> m.Valid() && m.turret in turrets
  }

  /** Every glue bullet slows down (a positive intensity) and is assigned, if
      at all, to one of the enemies. */
  ghost predicate GlueBulletsValid(u: set<GlueBullet>, enemies: set<Enemy>)
    reads u
  {
    forall g :: g in u ==> g.intensity > 0.0 && (g.assignedEnemy.Some? ==> g.assignedEnemy.value in enemies)
  }

  /** The enemies on stage and those flagged for teleporting were created by
      the engine, and no enemy is on stage twice. */
  ghost predicate EnemyLists(enemies: seq<Enemy>, teleported: seq<(Enemy, real)>, all: set<Enemy>) {
    Within(enemies, all) && Distinct(enemies) && TeleportsWithin(teleported, all)
  }

  /** The turrets on the board were created by the engine, each placed once. */
  ghost predicate TurretList(turrets: seq<Turret>, all: set<Turret>) {
    Within(turrets, all) && Distinct(turrets)
  }

  /** The glue bullets in flight and those queued for collision were created
      by the engine, and no bullet is in flight twice. */
  ghost predicate BulletLists(bullets: seq<GlueBullet>, colliding: seq<GlueBullet>, all: set<GlueBullet>) {
    Within(bullets, all) && Distinct(bullets) && Within(colliding, all)
  }

  /** The mortars in flight and those queued for impact were created by the
      engine, and no mortar is in flight twice. */
  ghost predicate MortarLists(mortars: seq<Mortar>, impacting: seq<Mortar>, all: set<Mortar>) {
    Within(mortars, all) && Distinct(mortars) && Within(impacting, all)
  }

  /** Every list of the engine holds entities the engine created, and no
      enemy, turret, glue bullet or mortar is on stage twice. */
  ghost predicate StageLists(enemies: seq<Enemy>, teleported: seq<(Enemy, real)>, turrets: seq<Turret>,
                             bullets: seq<GlueBullet>, colliding: seq<GlueBullet>, mortars: seq<Mortar>,
                             impacting: seq<Mortar>, allEnemies: set<Enemy>, allTurrets: set<Turret>,
                             allBullets: set<GlueBullet>, allMortars: set<Mortar>)
  {
    && EnemyLists(enemies, teleported, allEnemies) && TurretList(turrets, allTurrets)
    && BulletLists(bullets, colliding, allBullets) && MortarLists(mortars, impacting, allMortars)
  }
}
