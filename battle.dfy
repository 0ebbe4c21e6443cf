/** The battle turn engine: loading two fighters, then one turn per call
    (a stun skip or one attack) until one side's HP reaches zero. The
    `Random.nextInt(100)` draws of a turn are given as inputs. */
module Battle {
  import opened KotlinInt
  import opened Wrappers
  import opened Fighters
  import StatsGenerator

  // ---------------------------------------------------------------------
  // Values

  /** A value snapshot of a fighter in battle: its record, its current HP
      and whether it will skip its next turn. */
  datatype Combatant = Combatant(fighter: Fighter, currentHp: int, isStunned: bool)

  /** One line of the battle log, as an event rather than rendered text. */
  datatype LogLine =
    | BattleBegins(name1: string, name2: string)
    | TurnHeader(turn: int)
    | CannotMove(name: string)
    | CriticalHit(name: string)
    | Blocks(name: string)
    | Hits(attacker: string, defender: string, damage: int)
    | StunnedByBlow(name: string)
    | Dodges(attacker: string, defender: string)

  /** The draws of one turn in call order: `hit` is drawn on every attack,
      `critical` and `block` only on a hit, `stun` only on a critical hit. */
  datatype Rolls = Rolls(hit: int, critical: int, block: int, stun: int)

  /** Every draw is a `Random.nextInt(100)`. */
  predicate ValidRolls(r: Rolls)
  {
    0 <= r.hit < 100 && 0 <= r.critical < 100 && 0 <= r.block < 100 && 0 <= r.stun < 100
  }

  /** The screen state: loading, the two fighters once loaded, the log, and
      whether the battle is over, who won and whose turn it is. */
  datatype BattleState = BattleState(
    isLoading: bool,
    fighter1: Option<Combatant>,
    fighter2: Option<Combatant>,
    battleLog: seq<LogLine>,
    isBattleOver: bool,
    winner: Option<Fighter>,
    isFighter1Turn: bool)

  /** The state before the fighters are loaded. */
  const InitialState := BattleState(true, None, None, [], false, None, true)

  /** Once loading is over both fighters are present. */
  predicate Loaded(s: BattleState)
  {
    !s.isLoading ==> s.fighter1.Some? && s.fighter2.Some?
  }

  // ---------------------------------------------------------------------
  // Loading

  /** `loadFighters` once the two lookups have returned: when both found a
      fighter, each starts at full health and unstunned, the faster one
      moves first (fighter 1 on a tie) and the log holds one line; when
      either lookup found nothing the state is left as it was. */
  function Load(s: BattleState, f1: Option<Fighter>, f2: Option<Fighter>): (t: BattleState)
    ensures f1.None? || f2.None? ==> t == s
    ensures f1.Some? && f2.Some? ==>
      && !t.isLoading
      && t.fighter1 == Some(Combatant(f1.value, f1.value.health, false))
      && t.fighter2 == Some(Combatant(f2.value, f2.value.health, false))
      && t.isFighter1Turn == (f1.value.speed >= f2.value.speed)
      && t.battleLog == [BattleBegins(f1.value.name, f2.value.name)]
      && t.isBattleOver == s.isBattleOver && t.winner == s.winner
  {
    if f1.Some? && f2.Some? then
      s.(isLoading := false,
         fighter1 := Some(Combatant(f1.value, f1.value.health, false)),
         fighter2 := Some(Combatant(f2.value, f2.value.health, false)),
         isFighter1Turn := f1.value.speed >= f2.value.speed,
         battleLog := [BattleBegins(f1.value.name, f2.value.name)])
    else s
  }

  /** The combatant whose turn it is. */
  function Attacker(s: BattleState): Combatant
    requires !s.isLoading && Loaded(s)
  {
    if s.isFighter1Turn then s.fighter1.value else s.fighter2.value
  }

  /** The combatant being attacked this turn. */
  function Defender(s: BattleState): Combatant
    requires !s.isLoading && Loaded(s)
  {
    if s.isFighter1Turn then s.fighter2.value else s.fighter1.value
  }

  /** After a successful load the first attacker is at least as fast as the
      other fighter, and fighter 1 moves first on a tie. */
  lemma FasterFighterMovesFirst(f1: Fighter, f2: Fighter)
    ensures var s := Load(InitialState, Some(f1), Some(f2));
      && Attacker(s).fighter.speed >= Defender(s).fighter.speed
      && (f1.speed == f2.speed ==> s.isFighter1Turn)
      && (f1.speed > f2.speed <==> Attacker(s).fighter == f1 && Defender(s).fighter.speed < f1.speed)
  {
  }

  // ---------------------------------------------------------------------
  // One attack

  /** The hit test `roll < speedA / (speedA + speedD) * 100 + 20`, with the
      speed sum computed as a 32-bit `Int` and the comparison made exactly.
      A zero sum divides to +Infinity (always a hit) when `speedA` is
      positive and to NaN or -Infinity (never a hit) otherwise. With
      positive speeds every roll below 20 hits. */
  function HitLands(attackerSpeed: int, defenderSpeed: int, roll: int): (hit: bool)
    ensures (0 < attackerSpeed && 0 < defenderSpeed && attackerSpeed + defenderSpeed <= MaxInt
             && roll < 20) ==> hit
  {
    var total := Wrap32(attackerSpeed + defenderSpeed);
    if total > 0 then (roll - 20) * total < 100 * attackerSpeed
    else if total < 0 then (roll - 20) * total > 100 * attackerSpeed
    else attackerSpeed > 0
  }

  /** Rounding toward zero of a real number (`Double.toInt()` within range). */
  function TruncReal(x: real): int
  {
    if x >= 0.0 then x.Floor else -((-x).Floor)
  }

  /** Pre-block damage `max(1, (attack * m - defense * 0.5).toInt())` with
      `m` 1.5 on a critical hit and 1 otherwise, kept in halves so that it
      is exact: `(3 * attack - defense) / 2` or `(2 * attack - defense) / 2`
      rounded toward zero and saturated to the `Int` range. */
  function Damage(attack: int, defense: int, critical: bool): (d: int)
    ensures 1 <= d <= MaxInt
  {
    var raw := Sat32(Half((if critical then 3 else 2) * attack - defense));
    if raw < 1 then 1 else raw
  }

  /** The result of an attack: the defender afterwards and the log lines. */
  datatype Strike = Strike(defender: Combatant, lines: seq<LogLine>)

  /** An unstunned attacker's attack: hit test; on a hit, critical roll,
      damage, block (halving the damage), HP loss clamped at 0 and, on a
      critical hit, the stun roll. The defender keeps its record, a miss
      leaves it untouched, and one to four lines are logged. */
  function Attack(attacker: Combatant, defender: Combatant, rolls: Rolls): (st: Strike)
    ensures st.defender.fighter == defender.fighter
    ensures !HitLands(attacker.fighter.speed, defender.fighter.speed, rolls.hit) ==> st.defender == defender
    ensures 1 <= |st.lines| <= 4
  {
    var a := attacker.fighter;
    var d := defender.fighter;
    if !HitLands(a.speed, d.speed, rolls.hit) then
      Strike(defender, [Dodges(a.name, d.name)])
    else
      var critical := rolls.critical < a.skill;
      var blocked := rolls.block < Half(d.defense);
      var damage := if blocked then Damage(a.attack, d.defense, critical) / 2
                    else Damage(a.attack, d.defense, critical);
      var hp := Wrap32(defender.currentHp - damage);
      var stuns := critical && rolls.stun < 25;
      Strike(
        defender.(currentHp := if hp < 0 then 0 else hp,
                  isStunned := if stuns then true else defender.isStunned),
        (if critical then [CriticalHit(a.name)] else [])
        + (if blocked then [Blocks(d.name)] else [])
        + [Hits(a.name, d.name, damage)]
        + (if stuns then [StunnedByBlow(d.name)] else []))
  }

  /** The attacker's action: a stunned attacker cannot move, an unstunned
      one attacks, and only an attack can change the defender. */
  function Act(attacker: Combatant, defender: Combatant, rolls: Rolls): (st: Strike)
    ensures st.defender.fighter == defender.fighter
    ensures attacker.isStunned ==> st.defender == defender
    ensures 1 <= |st.lines| <= 4
  {
    if attacker.isStunned then Strike(defender, [CannotMove(attacker.fighter.name)])
    else Attack(attacker, defender, rolls)
  }

  // ---------------------------------------------------------------------
  // One turn

  /** `nextTurn`: nothing happens while loading or once the battle is over.
      Otherwise a turn header is logged; a stunned attacker loses its turn
      and its stun, an unstunned one attacks; then the side to move flips and
      the battle is over when either HP is at most 0, the attacker winning
      when the defender's HP is. A real turn keeps the log and extends it
      by two to five lines. */
  function Turn(s: BattleState, rolls: Rolls): (t: BattleState)
    requires Loaded(s)
    ensures Loaded(t) && t.isLoading == s.isLoading
    ensures !s.isLoading && !s.isBattleOver ==>
      && t.isFighter1Turn == !s.isFighter1Turn
      && |s.battleLog| + 2 <= |t.battleLog| <= |s.battleLog| + 5
  {
    if s.isBattleOver || s.isLoading then s
    else EndTurn(s, Attacker(s).(isStunned := false), Act(Attacker(s), Defender(s), rolls))
  }

  /** The end of a real turn, once the attacker has acted: the fighters are
      written back, the header and the action's lines are logged, the side
      to move flips and the outcome is computed: the battle is over exactly
      when it has a winner. */
  function EndTurn(s: BattleState, attacker: Combatant, strike: Strike): (t: BattleState)
    ensures Loaded(t) && t.isLoading == s.isLoading
    ensures t.isFighter1Turn == !s.isFighter1Turn
    ensures |t.battleLog| == |s.battleLog| + 1 + |strike.lines|
    ensures t.battleLog == s.battleLog + ([TurnHeader(|s.battleLog| / 2 + 1)] + strike.lines)
    ensures t.isBattleOver <==> t.winner.Some?
  {
    var defender := strike.defender;
    var winner := if defender.currentHp <= 0 then Some(attacker.fighter)
                  else if attacker.currentHp <= 0 then Some(defender.fighter)
                  else None;
    s.(fighter1 := Some(if s.isFighter1Turn then attacker else defender),
       fighter2 := Some(if s.isFighter1Turn then defender else attacker),
       battleLog := s.battleLog + ([TurnHeader(|s.battleLog| / 2 + 1)] + strike.lines),
       isFighter1Turn := !s.isFighter1Turn,
       isBattleOver := defender.currentHp <= 0 || attacker.currentHp <= 0,
       winner := winner)
  }

  // ---------------------------------------------------------------------
  // Properties of a turn

  /** A turn is a no-op while loading and once the battle is over. */
  lemma TurnIdleWhenLoadingOrOver(s: BattleState, rolls: Rolls)
    requires Loaded(s) && (s.isLoading || s.isBattleOver)
    ensures Turn(s, rolls) == s
  {
  }

  /** A stunned attacker deals no damage: the defender is unchanged, the
      attacker's stun is cleared and the turn still passes to the other side. */
  lemma StunnedAttackerSkips(s: BattleState, rolls: Rolls)
    requires Loaded(s) && !s.isLoading && !s.isBattleOver
    requires Attacker(s).isStunned
    ensures var t := Turn(s, rolls);
      && Loaded(t) && !t.isLoading
      && Defender(t) == Attacker(s).(isStunned := false)
      && Attacker(t) == Defender(s)
      && t.battleLog == s.battleLog + [TurnHeader(|s.battleLog| / 2 + 1), CannotMove(Attacker(s).fighter.name)]
  {
  }

  /** After a real turn the side to move flips, both fighter records and the
      attacker's HP are unchanged, the old log is kept as a prefix with at
      least two new lines after it, the battle is over exactly when some HP
      is at most 0, and the attacker is the winner exactly when the
      defender's HP is at most 0. */
  lemma TurnOutcome(s: BattleState, rolls: Rolls)
    requires Loaded(s) && !s.isLoading && !s.isBattleOver
    ensures var t := Turn(s, rolls);
      && Loaded(t) && !t.isLoading
      && t.isFighter1Turn == !s.isFighter1Turn
      && Defender(t).fighter == Attacker(s).fighter
      && Attacker(t).fighter == Defender(s).fighter
      && Defender(t).currentHp == Attacker(s).currentHp
      && |t.battleLog| >= |s.battleLog| + 2
      && t.battleLog[..|s.battleLog|] == s.battleLog
      && (t.isBattleOver <==> Attacker(t).currentHp <= 0 || Defender(t).currentHp <= 0)
      && (Attacker(t).currentHp <= 0 ==> t.winner == Some(Attacker(s).fighter))
      && (t.winner.None? <==> !t.isBattleOver)
  {
    var t := Turn(s, rolls);
    assert t.battleLog[..|s.battleLog|] == s.battleLog;
  }

  /** When the two fighters are different records, the attacker wins this
      turn exactly when the defender's HP ends at most 0. */
  lemma AttackerWinsIff(s: BattleState, rolls: Rolls)
    requires Loaded(s) && !s.isLoading && !s.isBattleOver
    requires Attacker(s).fighter != Defender(s).fighter
    ensures var t := Turn(s, rolls);
      t.winner == Some(Attacker(s).fighter) <==> Attacker(t).currentHp <= 0
  {
    TurnOutcome(s, rolls);
  }

  /** The defender's HP never goes below 0 and never rises, provided it was
      not negative to begin with. */
  lemma DefenderHpDecreases(s: BattleState, rolls: Rolls)
    requires Loaded(s) && !s.isLoading && !s.isBattleOver
    requires Defender(s).currentHp >= 0
    ensures 0 <= Attacker(Turn(s, rolls)).currentHp <= Defender(s).currentHp
  {
  }

  /** The defender becomes stunned this turn only through an unstunned
      attacker's critical hit whose stun roll is below 25, and always does
      after one. */
  lemma StunOnlyOnCriticalHit(s: BattleState, rolls: Rolls)
    requires Loaded(s) && !s.isLoading && !s.isBattleOver
    ensures var a, d := Attacker(s), Defender(s);
      var landed := !a.isStunned && HitLands(a.fighter.speed, d.fighter.speed, rolls.hit)
        && rolls.critical < a.fighter.skill && rolls.stun < 25;
      && (Attacker(Turn(s, rolls)).isStunned <==> d.isStunned || landed)
  {
  }

  /** The damage dealt on a hit is the pre-block damage, or half of it
      (rounded down) when the block roll is below `defense / 2`; it is 0 only
      for a blocked 1. The defender loses that much HP, stopping at 0. */
  lemma DealtDamage(s: BattleState, rolls: Rolls)
    requires Loaded(s) && !s.isLoading && !s.isBattleOver
    requires !Attacker(s).isStunned
    requires HitLands(Attacker(s).fighter.speed, Defender(s).fighter.speed, rolls.hit)
    requires 0 <= Defender(s).currentHp <= MaxInt
    ensures var a, d := Attacker(s).fighter, Defender(s).fighter;
      var full := Damage(a.attack, d.defense, rolls.critical < a.skill);
      var dealt := if rolls.block < Half(d.defense) then full / 2 else full;
      && 0 <= dealt <= full
      && (dealt == 0 ==> full == 1 && rolls.block < Half(d.defense))
    ensures var a, d := Attacker(s).fighter, Defender(s).fighter;
      var full := Damage(a.attack, d.defense, rolls.critical < a.skill);
      var dealt := if rolls.block < Half(d.defense) then full / 2 else full;
      var hp := Defender(s).currentHp - dealt;
      Attacker(Turn(s, rolls)).currentHp == (if hp < 0 then 0 else hp)
    ensures Turn(s, rolls).battleLog[|s.battleLog| + 1..] == Attack(Attacker(s), Defender(s), rolls).lines
    ensures var a, d := Attacker(s).fighter, Defender(s).fighter;
      var full := Damage(a.attack, d.defense, rolls.critical < a.skill);
      var dealt := if rolls.block < Half(d.defense) then full / 2 else full;
      Hits(a.name, d.name, dealt) in Turn(s, rolls).battleLog[|s.battleLog|..]
  {
    var t := Turn(s, rolls);
    var lines := Attack(Attacker(s), Defender(s), rolls).lines;
    assert t.battleLog == s.battleLog + [TurnHeader(|s.battleLog| / 2 + 1)] + lines;
    assert t.battleLog[|s.battleLog| + 1..] == lines;
    var a, d := Attacker(s).fighter, Defender(s).fighter;
    var critical := rolls.critical < a.skill;
    var full := Damage(a.attack, d.defense, critical);
    var blocked := rolls.block < Half(d.defense);
    var dealt := if blocked then full / 2 else full;
    var before := (if critical then [CriticalHit(a.name)] else []) + (if blocked then [Blocks(d.name)] else []);
    var after := if critical && rolls.stun < 25 then [StunnedByBlow(d.name)] else [];
    assert lines == before + [Hits(a.name, d.name, dealt)] + after;
    assert lines[|before|] == Hits(a.name, d.name, dealt);
    assert t.battleLog[|s.battleLog|..][1 + |before|] == Hits(a.name, d.name, dealt);
  }

  /** A miss leaves the defender untouched and logs one dodge. */
  lemma MissLeavesDefender(s: BattleState, rolls: Rolls)
    requires Loaded(s) && !s.isLoading && !s.isBattleOver
    requires !Attacker(s).isStunned
    requires !HitLands(Attacker(s).fighter.speed, Defender(s).fighter.speed, rolls.hit)
    ensures Attacker(Turn(s, rolls)) == Defender(s)
    ensures Turn(s, rolls).battleLog == s.battleLog
      + [TurnHeader(|s.battleLog| / 2 + 1), Dodges(Attacker(s).fighter.name, Defender(s).fighter.name)]
  {
  }

  // ---------------------------------------------------------------------
  // The battle invariant

  /** HP in range for a combatant. */
  predicate HpInRange(c: Combatant)
  {
    0 <= c.currentHp <= c.fighter.health <= MaxInt
  }

  /** What holds of every state reachable from a load of two fighters with
      positive health: both HPs within [0, health]; while the battle runs
      both are positive; once it is over, exactly one fighter's HP is 0 and
      the other fighter is the winner. */
  predicate Invariant(s: BattleState)
  {
    && Loaded(s)
    && (!s.isLoading ==>
          && HpInRange(s.fighter1.value) && HpInRange(s.fighter2.value)
          && (!s.isBattleOver ==> s.fighter1.value.currentHp > 0 && s.fighter2.value.currentHp > 0)
          && (s.isBattleOver ==>
                || (s.fighter1.value.currentHp == 0 && s.fighter2.value.currentHp > 0
                    && s.winner == Some(s.fighter2.value.fighter))
                || (s.fighter2.value.currentHp == 0 && s.fighter1.value.currentHp > 0
                    && s.winner == Some(s.fighter1.value.fighter))))
  }

  /** The state before loading satisfies the invariant, and so does a load
      of two fighters whose health is positive. */
  lemma LoadEstablishesInvariant(f1: Option<Fighter>, f2: Option<Fighter>)
    requires f1.Some? ==> 0 < f1.value.health <= MaxInt
    requires f2.Some? ==> 0 < f2.value.health <= MaxInt
    ensures Invariant(InitialState)
    ensures Invariant(Load(InitialState, f1, f2))
  {
  }

  /** Fighters made by the generator have positive health (at least 24,
      even for the seed `Long.MIN_VALUE`), so a battle between two of them
      starts in the invariant. */
  lemma GeneratedFightersStartValid(n1: string, b1: string, seed1: int, n2: string, b2: string, seed2: int)
    requires IsLong(seed1) && IsLong(seed2)
    ensures Invariant(Load(InitialState,
      Some(StatsGenerator.StatsFromSeed(n1, b1, seed1)),
      Some(StatsGenerator.StatsFromSeed(n2, b2, seed2))))
  {
    GeneratedHealthPositive(n1, b1, seed1);
    GeneratedHealthPositive(n2, b2, seed2);
    LoadEstablishesInvariant(
      Some(StatsGenerator.StatsFromSeed(n1, b1, seed1)),
      Some(StatsGenerator.StatsFromSeed(n2, b2, seed2)));
  }

  lemma GeneratedHealthPositive(name: string, barcode: string, seed: int)
    requires IsLong(seed)
    ensures 24 <= StatsGenerator.StatsFromSeed(name, barcode, seed).health <= 100
  {
    if seed == MinLong {
      StatsGenerator.MinSeedHealth(name, barcode);
    } else {
      StatsGenerator.StatsInRange(name, barcode, seed);
    }
  }

  /** Every turn preserves the invariant. */
  lemma TurnPreservesInvariant(s: BattleState, rolls: Rolls)
    requires Invariant(s)
    ensures Invariant(Turn(s, rolls))
  {
    if !s.isLoading && !s.isBattleOver {
      TurnOutcome(s, rolls);
      DefenderHpDecreases(s, rolls);
      if !Attacker(s).isStunned && HitLands(Attacker(s).fighter.speed, Defender(s).fighter.speed, rolls.hit) {
        DealtDamage(s, rolls);
      }
    }
  }

  /** Pre-block damage is the source's floating-point expression
      `max(1, (attack * m - defense * 0.5).toInt())`, computed here over the
      reals, whenever the result fits in an `Int`. */
  lemma DamageMatchesFloat(attack: int, defense: int, critical: bool)
    requires (if critical then 3 else 2) * attack - defense <= 2 * MaxInt
    ensures var m := if critical then 1.5 else 1.0;
      var t := TruncReal(attack as real * m - defense as real * 0.5);
      Damage(attack, defense, critical) == if t < 1 then 1 else t
  {
    var n := (if critical then 3 else 2) * attack - defense;
    var m := if critical then 1.5 else 1.0;
    assert attack as real * m - defense as real * 0.5 == n as real / 2.0;
    HalfIsTruncReal(n);
  }

  lemma HalfIsTruncReal(n: int)
    ensures Half(n) == TruncReal(n as real / 2.0)
  {
    var x := n as real / 2.0;
    if n >= 0 {
      assert (n / 2) as real <= x < (n / 2) as real + 1.0;
    } else {
      assert ((-n) / 2) as real <= -x < ((-n) / 2) as real + 1.0;
    }
  }

  /** A critical hit never does less pre-block damage than a normal one
      against the same defender, for a non-negative attack. */
  lemma CriticalNotWeaker(attack: int, defense: int)
    requires attack >= 0
    ensures Damage(attack, defense, true) >= Damage(attack, defense, false)
  {
  }

  /** The integer hit test is the source's threshold comparison
      `roll < speedA / (speedA + speedD) * 100 + 20`, computed over the reals,
      whenever the speed sum is a positive `Int`. */
  lemma HitLandsMatchesThreshold(attackerSpeed: int, defenderSpeed: int, roll: int)
    requires 0 < attackerSpeed + defenderSpeed <= MaxInt
    ensures HitLands(attackerSpeed, defenderSpeed, roll) <==>
      (roll as real) < (attackerSpeed as real) / ((attackerSpeed + defenderSpeed) as real) * 100.0 + 20.0
  {
    var n := attackerSpeed + defenderSpeed;
    assert HitLands(attackerSpeed, defenderSpeed, roll) <==> (roll - 20) * n < 100 * attackerSpeed;
    ThresholdScaled(attackerSpeed as real, n as real, (roll - 20) as real);
    CastProduct(roll - 20, n);
    CastProduct(100, attackerSpeed);
  }

  /** `x < a / n * 100` is `x * n < 100 * a` for a positive `n`. */
  lemma ThresholdScaled(a: real, n: real, x: real)
    requires n > 0.0
    ensures x < a / n * 100.0 <==> x * n < 100.0 * a
  {
    var y := a / n * 100.0;
    assert y * n == 100.0 * a;
    RealScale(x, y, n);
  }

  /** The real of a product of integers is the product of their reals. */
  lemma CastProduct(a: int, b: int)
    ensures (a * b) as real == a as real * b as real
  {
  }

  /** Multiplying by a positive real keeps a strict order. */
  lemma RealScale(x: real, y: real, n: real)
    requires n > 0.0
    ensures x < y <==> x * n < y * n
  {
    assert y * n - x * n == (y - x) * n;
  }

  /** A fighter at least as fast as its opponent hits on every roll below 70. */
  lemma FasterHitsBelowSeventy(attackerSpeed: int, defenderSpeed: int, roll: int)
    requires 0 < defenderSpeed <= attackerSpeed && attackerSpeed + defenderSpeed <= MaxInt
    requires roll < 70
    ensures HitLands(attackerSpeed, defenderSpeed, roll)
  {
    var n := attackerSpeed + defenderSpeed;
    MulMonotone(roll - 20, 50, n);
    assert 50 * n <= 100 * attackerSpeed;
  }

  /** A roll that hits keeps hitting when lowered. */
  lemma HitMonotone(attackerSpeed: int, defenderSpeed: int, roll: int, lower: int)
    requires 0 < attackerSpeed && 0 < defenderSpeed && attackerSpeed + defenderSpeed <= MaxInt
    requires lower <= roll && HitLands(attackerSpeed, defenderSpeed, roll)
    ensures HitLands(attackerSpeed, defenderSpeed, lower)
  {
    var n := attackerSpeed + defenderSpeed;
    if lower < roll {
      MulMonotone(lower - 20, roll - 20, n);
    }
  }

  lemma MulMonotone(a: int, b: int, n: int)
    requires a < b && n > 0
    ensures a * n < b * n
  {
    assert b * n - a * n == (b - a) * n;
  }

  // ---------------------------------------------------------------------
  // The view model

  /** A fighter in battle: its record and the two fields a turn updates in
      place. */
  class BattleFighter {
    const fighter: Fighter
    var currentHp: int
    var isStunned: bool

    constructor (fighter: Fighter, currentHp: int)
      ensures this.fighter == fighter && this.currentHp == currentHp && !isStunned
    {
      this.fighter := fighter;
      this.currentHp := currentHp;
      this.isStunned := false;
    }

    function Snapshot(): Combatant
      reads this
    {
      Combatant(fighter, currentHp, isStunned)
    }
  }

  /** The attack branch of `nextTurn` for an unstunned attacker: updates
      the defender in place and returns the new log lines. */
  method ResolveAttack(attacker: BattleFighter, defender: BattleFighter, rolls: Rolls)
    returns (lines: seq<LogLine>)
    requires attacker != defender
    modifies defender
    ensures defender.Snapshot() == Attack(attacker.Snapshot(), old(defender.Snapshot()), rolls).defender
    ensures lines == Attack(attacker.Snapshot(), old(defender.Snapshot()), rolls).lines
  {
    ghost var strike := Attack(attacker.Snapshot(), defender.Snapshot(), rolls);
    if HitLands(attacker.fighter.speed, defender.fighter.speed, rolls.hit) {
      var isCritical := rolls.critical < attacker.fighter.skill;
      var damage := Damage(attacker.fighter.attack, defender.fighter.defense, isCritical);
      var critLines := if isCritical then [CriticalHit(attacker.fighter.name)] else [];
      var blockChance := Half(defender.fighter.defense);
      var blockLines := [];
      if rolls.block < blockChance {
        damage := damage / 2;
        blockLines := [Blocks(defender.fighter.name)];
      }
      var hp := Wrap32(defender.currentHp - damage);
      defender.currentHp := if hp < 0 then 0 else hp;
      assert defender.currentHp == strike.defender.currentHp;
      var stunLines := [];
      if isCritical && rolls.stun < 25 {
        defender.isStunned := true;
        stunLines := [StunnedByBlow(defender.fighter.name)];
      }
      lines := critLines + blockLines + [Hits(attacker.fighter.name, defender.fighter.name, damage)] + stunLines;
      assert lines == strike.lines;
    } else {
      lines := [Dodges(attacker.fighter.name, defender.fighter.name)];
    }
  }

  /** The stun check of `nextTurn` followed, for an unstunned attacker,
      by its attack; returns the new log lines. */
  method TakeAction(attacker: BattleFighter, defender: BattleFighter, rolls: Rolls)
    returns (lines: seq<LogLine>)
    requires attacker != defender
    modifies attacker, defender
    ensures attacker.Snapshot() == old(attacker.Snapshot()).(isStunned := false)
    ensures defender.Snapshot() == Act(old(attacker.Snapshot()), old(defender.Snapshot()), rolls).defender
    ensures lines == Act(old(attacker.Snapshot()), old(defender.Snapshot()), rolls).lines
  {
    if attacker.isStunned {
      lines := [CannotMove(attacker.fighter.name)];
      attacker.isStunned := false;
    } else {
      lines := ResolveAttack(attacker, defender, rolls);
    }
  }

  /** The battle screen's view model. Its fields are the screen state; the
      two fighters are objects that a turn updates in place. */
  class BattleViewModel {
    var isLoading: bool
    var fighter1: BattleFighter?
    var fighter2: BattleFighter?
    var battleLog: seq<LogLine>
    var isBattleOver: bool
    var winner: Option<Fighter>
    var isFighter1Turn: bool

    /** Once loaded, the two fighters are present and distinct objects. */
    ghost predicate Valid()
      reads this
    {
      !isLoading ==> fighter1 != null && fighter2 != null && fighter1 != fighter2
    }

    /** The screen state as a value. */
    function State(): BattleState
      reads this, fighter1, fighter2
    {
      BattleState(
        isLoading,
        if fighter1 == null then None else Some(fighter1.Snapshot()),
        if fighter2 == null then None else Some(fighter2.Snapshot()),
        battleLog, isBattleOver, winner, isFighter1Turn)
    }

    /** The view model starts loading, with no fighters and an empty log. */
    constructor ()
      ensures Valid() && State() == InitialState
    {
      isLoading := true;
      fighter1 := null;
      fighter2 := null;
      battleLog := [];
      isBattleOver := false;
      winner := None;
      isFighter1Turn := true;
    }

    /** `loadFighters` once the repository lookups `f1` and `f2` have
        returned (`None` for a missing fighter). */
    method LoadFighters(f1: Option<Fighter>, f2: Option<Fighter>)
      requires Valid()
      modifies this
      ensures Valid() && State() == Load(old(State()), f1, f2)
      ensures f1.Some? && f2.Some? ==> fresh(fighter1) && fresh(fighter2)
      ensures f1.None? || f2.None? ==> fighter1 == old(fighter1) && fighter2 == old(fighter2)
    {
      if f1.Some? && f2.Some? {
        var battleFighter1 := new BattleFighter(f1.value, f1.value.health);
        var battleFighter2 := new BattleFighter(f2.value, f2.value.health);
        var fighter1Turn := f1.value.speed >= f2.value.speed;
        isLoading := false;
        fighter1 := battleFighter1;
        fighter2 := battleFighter2;
        isFighter1Turn := fighter1Turn;
        battleLog := [BattleBegins(f1.value.name, f2.value.name)];
      }
    }

    /** `nextTurn` with the turn's random draws given as `rolls`. */
    method NextTurn(rolls: Rolls)
      requires Valid() && ValidRolls(rolls)
      modifies this, fighter1, fighter2
      ensures Valid() && fighter1 == old(fighter1) && fighter2 == old(fighter2)
      ensures State() == Turn(old(State()), rolls)
    {
      if isBattleOver || isLoading {
        return;
      }
      ghost var s := State();
      var attacker := if isFighter1Turn then fighter1 else fighter2;
      var defender := if isFighter1Turn then fighter2 else fighter1;
      assert attacker.Snapshot() == Attacker(s) && defender.Snapshot() == Defender(s);
      var lines := TakeAction(attacker, defender, rolls);
      ghost var strike := Strike(defender.Snapshot(), lines);
      assert strike == Act(Attacker(s), Defender(s), rolls);
      assert attacker.Snapshot() == Attacker(s).(isStunned := false);
      FinishTurn(attacker, defender, lines);
    }

    /** The end of `nextTurn`, once the attacker has acted: append the
        turn's log, flip the side to move and compute the outcome. */
    method FinishTurn(attacker: BattleFighter, defender: BattleFighter, lines: seq<LogLine>)
      requires Valid() && !isLoading
      requires attacker == (if isFighter1Turn then fighter1 else fighter2)
      requires defender == (if isFighter1Turn then fighter2 else fighter1)
      modifies this
      ensures Valid() && fighter1 == old(fighter1) && fighter2 == old(fighter2)
      ensures State() == EndTurn(old(State()), attacker.Snapshot(), Strike(defender.Snapshot(), lines))
    {
      var newLog := [TurnHeader(|battleLog| / 2 + 1)] + lines;
      var over := defender.currentHp <= 0 || attacker.currentHp <= 0;
      var winnerNow := if defender.currentHp <= 0 then Some(attacker.fighter)
                       else if attacker.currentHp <= 0 then Some(defender.fighter)
                       else None;
      battleLog := battleLog + newLog;
      isFighter1Turn := !isFighter1Turn;
      isBattleOver := over;
      winner := winnerNow;
    }
  }
}
