# ScanFighter core, modelled in Dafny

ScanFighter is an Android game. Scanning a barcode creates a fighter whose
stats and colour signature come from the barcode's SHA-256 digest. Two
fighters then fight a turn-based battle. This project models the app's
sequential logic and proves properties about it:

- **Fighter generation** (`stats_generator.dfy`, module `StatsGenerator`).
  - The 64-bit seed is the big-endian reading of the digest's first eight bytes.
  - Six stats are `floor + abs(seed shr k) % m`.
  - The colour signature is made of palette entries `abs(seed shr 3i) % 12`, built by a loop.
  - Kotlin's integer semantics are written out in `kotlin.dfy` (module `KotlinInt`): two's-complement wrap-around, `abs(Long.MIN_VALUE) == Long.MIN_VALUE`, the truncating `%` and `/`, and the arithmetic `shr` with its 6-bit distance mask.
- **Musical signature** (`music.dfy`, module `Music`). Each colour's palette index selects a note of the 12-tone chromatic scale. `signatures.dfy` composes this with the generator.
- **Battle engine** (`battle.dfy`, module `Battle`).
  - A value-level specification: `BattleState`, `Load` and `Turn`.
  - The imperative model proved against it: classes `BattleFighter` and `BattleViewModel`. `LoadFighters` allocates two fresh `BattleFighter` objects, and `NextTurn` updates their HP and stun flags in place.
  - Lemmas cover the turn rules and a battle invariant kept by every turn.
  - Each `Random.nextInt(100)` draw is an input in [0, 100).
- **Selection screens** (`leaderboard.dfy`, `fighter_selection.dfy`, `navigation.dfy`).
  - Two-fighter selection toggles: the leaderboard matches fighters by id, the selection screen by whole-record equality.
  - The start-battle gate, the leaderboard's medal rule and its rename guard.

Supporting files: `fighter.dfy` (the fighter record), `colors.dfy` (HSV
colours), `wrappers.dfy` (`Option`, `Result`).

## Model

Source paths are relative to the repository root.

| member | source | states |
|---|---|---|
| KotlinInt.Wrap32 | app/src/main/java/com/catto/scanfighter/utils/viewmodels/BattleViewModel.kt:105 | 32-bit `Int` arithmetic: the result is an `Int`, congruent to the exact value modulo 2^32, and equal to it when it fits |
| KotlinInt.Abs64 | app/src/main/java/com/catto/scanfighter/utils/FighterStatsGenerator.kt:21 | `abs` on a `Long`: the magnitude for every value except `Long.MIN_VALUE`, which it returns unchanged |
| KotlinInt.KRem | app/src/main/java/com/catto/scanfighter/utils/FighterStatsGenerator.kt:21 | Kotlin `%` truncates toward zero: for a non-negative dividend it is the usual remainder in [0, m); for a negative one it is minus the remainder of the magnitude, in (-m, 0] |
| KotlinInt.Half | app/src/main/java/com/catto/scanfighter/utils/viewmodels/BattleViewModel.kt:99 | integer `/ 2` rounds toward zero: bounds for each sign of the dividend |
| KotlinInt.Shr | app/src/main/java/com/catto/scanfighter/utils/FighterStatsGenerator.kt:22-26 | `shr` on a `Long` is floor division by 2 to the power of the distance modulo 64 (`r == x / 2^(k mod 64)`, with `2^(k mod 64) * r <= x < 2^(k mod 64) * (r + 1)`); the result is a `Long` on the same side of zero and no farther from it; a distance that is non-zero modulo 64 never yields `Long.MIN_VALUE` |
| KotlinInt.HalveFloorIsDiv | app/src/main/java/com/catto/scanfighter/utils/FighterStatsGenerator.kt:22-26 | halving n times with rounding toward negative infinity is floor division by 2^n |
| KotlinInt.FloorDivUnique | app/src/main/java/com/catto/scanfighter/utils/FighterStatsGenerator.kt:22-26 | the floor quotient is the only `q` with `d * q <= x < d * (q + 1)` |
| KotlinInt.Sat32 | app/src/main/java/com/catto/scanfighter/utils/viewmodels/BattleViewModel.kt:92 | `Double.toInt()` saturates: in-range values are kept, out-of-range values become the nearest `Int` bound |
| StatsGenerator.ReadLong | app/src/main/java/com/catto/scanfighter/utils/FighterStatsGenerator.kt:19 | the seed read from a digest is a signed 64-bit value |
| StatsGenerator.ReadLongOfBytes | app/src/main/java/com/catto/scanfighter/utils/FighterStatsGenerator.kt:17-19 | the seed is exactly the first eight digest bytes read as a big-endian two's-complement `Long`: every `Long` is read back from its own bytes, whatever follows them |
| StatsGenerator.Seed | app/src/main/java/com/catto/scanfighter/utils/FighterStatsGenerator.kt:17-19 | a barcode's seed is a `Long` |
| StatsGenerator.StatsFromSeed | app/src/main/java/com/catto/scanfighter/utils/FighterStatsGenerator.kt:21-37 | the record keeps the given name and barcode, with id, wins and losses at their defaults of 0 |
| StatsGenerator.GenerateStats | app/src/main/java/com/catto/scanfighter/utils/FighterStatsGenerator.kt:16-38 | `generateStats`: the returned record keeps the name and barcode and has id, wins and losses 0 |
| StatsGenerator.Stat | app/src/main/java/com/catto/scanfighter/utils/FighterStatsGenerator.kt:21-26 | one stat is less than `range` away from `floor` on either side; it can fall below `floor` only through the sign-keeping remainder |
| StatsGenerator.StatInRange | app/src/main/java/com/catto/scanfighter/utils/FighterStatsGenerator.kt:21-26 | a stat lies in [floor, floor + range) whenever the shift is non-zero modulo 64 or the seed is not `Long.MIN_VALUE` |
| StatsGenerator.StatsInRange | app/src/main/java/com/catto/scanfighter/utils/FighterStatsGenerator.kt:21-26 | attack in [10,50], defense in [5,40], speed in [1,20], luck in [1,10] and skill in [5,30] for every seed; health in [50,100] for every seed except `Long.MIN_VALUE` |
| StatsGenerator.MinSeedHealth | app/src/main/java/com/catto/scanfighter/utils/FighterStatsGenerator.kt:21 | the seed `Long.MIN_VALUE` gives health 24, outside [50,100] |
| StatsGenerator.StatsDependOnlyOnSeedBytes | app/src/main/java/com/catto/scanfighter/utils/FighterStatsGenerator.kt:17-26 | two barcodes whose digests share their first eight bytes get the same stats: generation depends on the barcode only through the seed |
| StatsGenerator.ShiftDistance | app/src/main/java/com/catto/scanfighter/utils/FighterStatsGenerator.kt:48 | the 32-bit overflow of `i * 3` does not change the masked shift distance |
| StatsGenerator.ColorIndex | app/src/main/java/com/catto/scanfighter/utils/FighterStatsGenerator.kt:48 | a colour index is in (-12, 12): `abs` of a `Long` followed by the sign-keeping `%` cannot go further |
| StatsGenerator.ColorIndexInRange | app/src/main/java/com/catto/scanfighter/utils/FighterStatsGenerator.kt:48 | colour index i lies in [0,12) except when `3i` is a multiple of 64 and the seed is `Long.MIN_VALUE` |
| StatsGenerator.MinSeedColorIndex | app/src/main/java/com/catto/scanfighter/utils/FighterStatsGenerator.kt:48-49 | for seed `Long.MIN_VALUE` and a zero masked distance (i = 0, 64, 128, ...) the index is -8 |
| StatsGenerator.GenerateColorSignature | app/src/main/java/com/catto/scanfighter/utils/FighterStatsGenerator.kt:40-52 | `count` defaults to 5; the call succeeds exactly when every index below `count` is in the palette; then it returns `max(count, 0)` colours, colour i being palette entry `ColorIndex(seed, i)`; otherwise it fails with the first out-of-palette index |
| StatsGenerator.ColorsFromSeed | app/src/main/java/com/catto/scanfighter/utils/FighterStatsGenerator.kt:46-51 | the loop over `0 until count` for a given seed: the same success condition, colours and first failing index as `GenerateColorSignature` |
| StatsGenerator.StatCorrected | app/src/main/java/com/catto/scanfighter/utils/FighterStatsGenerator.kt:21-26 | with `abs(x % m)` every stat lies in [floor, floor + range) for every seed |
| StatsGenerator.ColorIndexCorrected | app/src/main/java/com/catto/scanfighter/utils/FighterStatsGenerator.kt:48 | with `abs(x % 12)` every colour index lies in [0,12) for every seed |
| StatsGenerator.StatsFromSeedCorrected | app/src/main/java/com/catto/scanfighter/utils/FighterStatsGenerator.kt:21-37 | with corrected slices every stat of the generated record is in its range for every seed, and name, barcode, id, wins and losses are as in the shipped record |
| StatsGenerator.StatsFromSeedCorrectedAgrees | app/src/main/java/com/catto/scanfighter/utils/FighterStatsGenerator.kt:21-26 | the corrected record equals the shipped one for every seed except `Long.MIN_VALUE`, and differs there only in health |
| StatsGenerator.AbsRemCommute | app/src/main/java/com/catto/scanfighter/utils/FighterStatsGenerator.kt:21 | `abs(x) % m == abs(x % m)` for every `Long` except `Long.MIN_VALUE` |
| StatsGenerator.StatCorrectedAgrees | app/src/main/java/com/catto/scanfighter/utils/FighterStatsGenerator.kt:21-26 | the corrected stat equals the shipped one wherever the shipped one is in range |
| StatsGenerator.MinSeedHealthCorrected | app/src/main/java/com/catto/scanfighter/utils/FighterStatsGenerator.kt:21 | the corrected health of seed `Long.MIN_VALUE` is 76, inside [50,100] |
| StatsGenerator.ColorIndexCorrectedAgrees | app/src/main/java/com/catto/scanfighter/utils/FighterStatsGenerator.kt:48 | the corrected colour index equals the shipped one wherever the shipped one is in range |
| Music.IndexOf | app/src/main/java/com/catto/scanfighter/utils/MusicUtils.kt:42 | `indexOf`: -1 exactly when the colour is absent, otherwise the position of its first occurrence |
| Music.NoteFor | app/src/main/java/com/catto/scanfighter/utils/MusicUtils.kt:40-56 | the loop body: a colour gives a tone exactly when it is in the palette, that tone is a note of the chromatic scale, and any other colour takes the hue fallback of that same colour |
| Music.GenerateMusicalSignature | app/src/main/java/com/catto/scanfighter/utils/MusicUtils.kt:37-59 | one note per colour, in order (so an empty list gives an empty signature), note i being the note for colour i |
| Music.PaletteDistinct | app/src/main/java/com/catto/scanfighter/utils/MusicUtils.kt:25-27 | the twelve palette colours are pairwise distinct |
| Music.PaletteColorNote | app/src/main/java/com/catto/scanfighter/utils/MusicUtils.kt:9-27 | palette and scale both have 12 entries, and palette colour k plays scale note k |
| Music.PaletteSignatureTones | app/src/main/java/com/catto/scanfighter/utils/MusicUtils.kt:42-46 | a signature of palette colours consists of scale tones only |
| Signatures.PalettesAgree | app/src/main/java/com/catto/scanfighter/utils/MusicUtils.kt:24-27 | the music palette is identical to the generator's palette |
| Signatures.GeneratedSignatureNotes | app/src/main/java/com/catto/scanfighter/utils/MusicUtils.kt:42-46 | for a generated colour signature, note i is scale note `ColorIndex(seed, i)` |
| Signatures.SignatureIndicesDefined | app/src/main/java/com/catto/scanfighter/utils/FighterStatsGenerator.kt:47-50 | for every seed except `Long.MIN_VALUE` every colour index, and so every note, is defined |
| Battle.Load | app/src/main/java/com/catto/scanfighter/utils/viewmodels/BattleViewModel.kt:45-67 | when both lookups succeed, loading ends; each fighter starts at its full health, unstunned; the faster fighter moves first, fighter 1 on a tie; the log holds only the battle-begins line; the battle-over flag and winner are untouched. When either lookup fails, the state is unchanged |
| Battle.FasterFighterMovesFirst | app/src/main/java/com/catto/scanfighter/utils/viewmodels/BattleViewModel.kt:54 | the first attacker is at least as fast as its opponent; on a tie fighter 1 moves first |
| Battle.Damage | app/src/main/java/com/catto/scanfighter/utils/viewmodels/BattleViewModel.kt:89-92 | pre-block damage is between 1 and `Int.MAX_VALUE` |
| Battle.Attack | app/src/main/java/com/catto/scanfighter/utils/viewmodels/BattleViewModel.kt:84-117 | an attack keeps the defender's record, leaves the defender untouched on a miss, and logs one to four lines |
| Battle.Act | app/src/main/java/com/catto/scanfighter/utils/viewmodels/BattleViewModel.kt:80-117 | the action keeps the defender's record, a stunned attacker leaves the defender untouched, and one to four lines are logged |
| Battle.Turn | app/src/main/java/com/catto/scanfighter/utils/viewmodels/BattleViewModel.kt:69-131 | a turn keeps both fighters present and the loading flag as it was; a real turn flips the side to move and extends the log by two to five lines |
| Battle.EndTurn | app/src/main/java/com/catto/scanfighter/utils/viewmodels/BattleViewModel.kt:120-130 | the end of a turn flips the side to move, appends the turn header (numbered `|log| / 2 + 1`) and then the action's lines to the old log, and makes the battle over exactly when there is a winner |
| Battle.DamageMatchesFloat | app/src/main/java/com/catto/scanfighter/utils/viewmodels/BattleViewModel.kt:89-92 | the integer damage equals `max(1, trunc(attack * m - defense * 0.5))` computed over the reals, whenever `k * attack - defense`, with `k` 3 on a critical hit and 2 otherwise, is at most `2 * Int.MAX_VALUE` so that `toInt()` does not saturate |
| Battle.HalfIsTruncReal | app/src/main/java/com/catto/scanfighter/utils/viewmodels/BattleViewModel.kt:91-92 | halving with truncation equals truncating the real half |
| Battle.CriticalNotWeaker | app/src/main/java/com/catto/scanfighter/utils/viewmodels/BattleViewModel.kt:88-92 | for a non-negative attack, a critical hit never does less pre-block damage than a normal one |
| Battle.HitLandsMatchesThreshold | app/src/main/java/com/catto/scanfighter/utils/viewmodels/BattleViewModel.kt:85-86 | the integer hit test is exactly `roll < speedA / (speedA + speedD) * 100 + 20` over the reals, whenever the speed sum is a positive `Int` |
| Battle.HitLands | app/src/main/java/com/catto/scanfighter/utils/viewmodels/BattleViewModel.kt:85-86 | with positive speeds whose sum is an `Int`, every roll below 20 hits |
| Battle.FasterHitsBelowSeventy | app/src/main/java/com/catto/scanfighter/utils/viewmodels/BattleViewModel.kt:85-86 | with positive speeds whose sum is an `Int`, an attacker at least as fast as the defender hits on every roll below 70 |
| Battle.HitMonotone | app/src/main/java/com/catto/scanfighter/utils/viewmodels/BattleViewModel.kt:85-86 | a roll that hits keeps hitting when lowered |
| Battle.TurnIdleWhenLoadingOrOver | app/src/main/java/com/catto/scanfighter/utils/viewmodels/BattleViewModel.kt:71 | a turn changes nothing while loading or once the battle is over |
| Battle.StunnedAttackerSkips | app/src/main/java/com/catto/scanfighter/utils/viewmodels/BattleViewModel.kt:80-82 | a stunned attacker leaves the defender untouched, loses its stun, logs a header and a can't-move line, and the turn passes to the other side |
| Battle.TurnOutcome | app/src/main/java/com/catto/scanfighter/utils/viewmodels/BattleViewModel.kt:120-130 | after a real turn the side to move flips, both records and the attacker's HP are kept, the old log is a prefix followed by at least two lines, the battle is over exactly when some HP is at most 0, and there is a winner exactly when it is over |
| Battle.AttackerWinsIff | app/src/main/java/com/catto/scanfighter/utils/viewmodels/BattleViewModel.kt:121-127 | when the two fighters are different records, the attacker wins exactly when the defender's HP ends at most 0 |
| Battle.DefenderHpDecreases | app/src/main/java/com/catto/scanfighter/utils/viewmodels/BattleViewModel.kt:105 | the defender's HP never rises and never drops below 0 |
| Battle.StunOnlyOnCriticalHit | app/src/main/java/com/catto/scanfighter/utils/viewmodels/BattleViewModel.kt:109-111 | the defender is stunned afterwards exactly when it already was, or an unstunned attacker landed a critical hit whose stun roll is below 25 |
| Battle.DealtDamage | app/src/main/java/com/catto/scanfighter/utils/viewmodels/BattleViewModel.kt:88-106 | on a hit the dealt damage is the pre-block damage, halved on a block roll below `defense / 2`; it is 0 only for a blocked 1; the defender's HP drops by it, stopping at 0; the log gets the attack's lines, including the hit line with that damage |
| Battle.MissLeavesDefender | app/src/main/java/com/catto/scanfighter/utils/viewmodels/BattleViewModel.kt:116 | a miss leaves the defender untouched and logs a header and one dodge line |
| Battle.LoadEstablishesInvariant | app/src/main/java/com/catto/scanfighter/utils/viewmodels/BattleViewModel.kt:50-63 | the initial state, and a load of two fighters with positive health, satisfy the battle invariant |
| Battle.GeneratedHealthPositive | app/src/main/java/com/catto/scanfighter/utils/FighterStatsGenerator.kt:21 | a generated fighter's health is in [24, 100] for every seed |
| Battle.GeneratedFightersStartValid | app/src/main/java/com/catto/scanfighter/utils/viewmodels/BattleViewModel.kt:51-52 | a battle between two generated fighters starts in the invariant |
| Battle.TurnPreservesInvariant | app/src/main/java/com/catto/scanfighter/utils/viewmodels/BattleViewModel.kt:69-131 | every turn keeps the invariant: HPs within [0, health]; both positive while running; once over, exactly one HP is 0 and the other fighter is the winner |
| Battle.BattleFighter.constructor | app/src/main/java/com/catto/scanfighter/utils/viewmodels/BattleViewModel.kt:22-26 | a battle fighter starts with the given record and HP, unstunned |
| Battle.ResolveAttack | app/src/main/java/com/catto/scanfighter/utils/viewmodels/BattleViewModel.kt:84-117 | the attack updates the defender in place to `Attack(...).defender` and returns `Attack(...).lines` |
| Battle.TakeAction | app/src/main/java/com/catto/scanfighter/utils/viewmodels/BattleViewModel.kt:80-118 | the attacker only loses its stun, and the defender and the lines are those of `Act` |
| Battle.BattleViewModel.constructor | app/src/main/java/com/catto/scanfighter/utils/viewmodels/BattleViewModel.kt:28-38 | the view model starts in the initial state: loading, no fighters, empty log |
| Battle.BattleViewModel.LoadFighters | app/src/main/java/com/catto/scanfighter/utils/viewmodels/BattleViewModel.kt:45-67 | the new screen state is `Load` of the old one, with fresh fighter objects on success |
| Battle.BattleViewModel.FinishTurn | app/src/main/java/com/catto/scanfighter/utils/viewmodels/BattleViewModel.kt:120-130 | after the action, the log gains the header and the action's lines, the side to move flips, and the over flag and winner follow the two HPs |
| Battle.BattleViewModel.NextTurn | app/src/main/java/com/catto/scanfighter/utils/viewmodels/BattleViewModel.kt:69-131 | the new screen state, fighters included, is `Turn` of the old one |
| Navigation.StartBattle | app/src/main/java/com/catto/scanfighter/ui/screens/LeaderboardScreen.kt:127-137 | a battle route exists exactly when two fighters are selected, and it carries the first selected id as fighter 1 and the second as fighter 2; the selection screen's button (FighterSelectionScreen.kt lines 92-102) is the same gate |
| Leaderboard.WithoutId | app/src/main/java/com/catto/scanfighter/ui/screens/LeaderboardScreen.kt:67 | filtering by id keeps exactly the entries with another id, in their order, and leaves none with that id; the result is shorter by the number of entries with that id, so every other entry keeps all its occurrences |
| Leaderboard.WithoutIdKeepsCounts | app/src/main/java/com/catto/scanfighter/ui/screens/LeaderboardScreen.kt:67 | every fighter whose id differs occurs in the filtered list exactly as many times as in the selection |
| Leaderboard.SelectFighterForBattle | app/src/main/java/com/catto/scanfighter/ui/screens/LeaderboardScreen.kt:65-73 | after a tap the fighter's id is selected exactly when it was not selected and fewer than two fighters were; the selection grows by at most one entry |
| Leaderboard.TapKeepsOtherHighlights | app/src/main/java/com/catto/scanfighter/ui/screens/LeaderboardScreen.kt:65-73 | a tap leaves the selected state of every other id as it was |
| Leaderboard.WithoutIdKeepsDistinct | app/src/main/java/com/catto/scanfighter/ui/screens/LeaderboardScreen.kt:67 | filtering keeps the ids distinct |
| Leaderboard.WithoutAbsentId | app/src/main/java/com/catto/scanfighter/ui/screens/LeaderboardScreen.kt:67 | filtering out an id that no entry has changes nothing |
| Leaderboard.SelectionStaysValid | app/src/main/java/com/catto/scanfighter/ui/screens/LeaderboardScreen.kt:65-73 | the selection never exceeds two entries and never holds two entries with the same id |
| Leaderboard.SelectFighterForBattleCases | app/src/main/java/com/catto/scanfighter/ui/screens/LeaderboardScreen.kt:65-73 | an already-selected id is removed and every other entry kept in order; an unselected fighter is appended at the end when fewer than two are selected; otherwise nothing changes |
| Leaderboard.SelectTwiceRestores | app/src/main/java/com/catto/scanfighter/ui/screens/LeaderboardScreen.kt:65-73 | tapping the same fighter twice, with room to select it, restores the selection |
| Leaderboard.StartBattleDistinctFighters | app/src/main/java/com/catto/scanfighter/ui/screens/LeaderboardScreen.kt:127-137 | a selection with distinct ids never starts a battle of a fighter against itself |
| Leaderboard.SelectionState.constructor | app/src/main/java/com/catto/scanfighter/ui/screens/LeaderboardScreen.kt:55 | the selection starts empty |
| Leaderboard.SelectionState.SelectFighterForBattleTap | app/src/main/java/com/catto/scanfighter/ui/screens/LeaderboardScreen.kt:65-73 | the stored selection becomes the toggled one and keeps at most two entries with distinct ids; the tapped card is highlighted afterwards exactly when it was not and fewer than two were selected; every card with another id keeps its highlight |
| Leaderboard.SelectionState.IsSelected | app/src/main/java/com/catto/scanfighter/ui/screens/LeaderboardScreen.kt:106 | a card is highlighted exactly when some selected entry carries its id, whichever record that entry is |
| Leaderboard.MedalFor | app/src/main/java/com/catto/scanfighter/ui/screens/LeaderboardScreen.kt:100-105 | ranks 0, 1 and 2 get gold, silver and bronze, and every other rank gets no medal |
| Leaderboard.Rename | app/src/main/java/com/catto/scanfighter/ui/screens/LeaderboardScreen.kt:178-179 | a rename is stored exactly when the new name has a non-whitespace character, and it changes only the name |
| FighterSelection.WithoutFighter | app/src/main/java/com/catto/scanfighter/ui/screens/FighterSelectionScreen.kt:52 | filtering keeps exactly the entries unequal to the fighter, in their order, so none equal to it remains; the result is shorter by the number of occurrences of the fighter, so every other entry keeps all its occurrences |
| FighterSelection.SelectFighter | app/src/main/java/com/catto/scanfighter/ui/screens/FighterSelectionScreen.kt:50-58 | after a tap the record is selected exactly when it was not selected and fewer than two fighters were; every other record keeps its selected state; the selection grows by at most one entry |
| FighterSelection.WithoutFighterKeepsNoRepeats | app/src/main/java/com/catto/scanfighter/ui/screens/FighterSelectionScreen.kt:52 | filtering keeps the entries pairwise distinct |
| FighterSelection.SelectFighterSpec | app/src/main/java/com/catto/scanfighter/ui/screens/FighterSelectionScreen.kt:50-58 | at most two entries, none repeated; a selected record is removed with every other entry kept; an unselected one is appended exactly when fewer than two are selected, and otherwise nothing changes |
| FighterSelection.UpdatedCopySelectedTwice | app/src/main/java/com/catto/scanfighter/ui/screens/FighterSelectionScreen.kt:50-58 | because records are compared whole, a stale and an updated copy of one fighter can both be selected, and the battle route then names the same id twice |
| FighterSelection.SelectionState.constructor | app/src/main/java/com/catto/scanfighter/ui/screens/FighterSelectionScreen.kt:49 | the selection starts empty |
| FighterSelection.SelectionState.SelectFighterTap | app/src/main/java/com/catto/scanfighter/ui/screens/FighterSelectionScreen.kt:50-58 | the stored selection becomes the toggled one and keeps at most two distinct entries; the tapped row is shown selected afterwards exactly when it was not and fewer than two were selected; every other row keeps its state |
| FighterSelection.SelectionState.IsSelected | app/src/main/java/com/catto/scanfighter/ui/screens/FighterSelectionScreen.kt:78 | a row is shown as selected exactly when its record occurs in the selection |

## Left out

- SHA-256 and the UTF-8 encoding of the barcode are a foreign library call. Every operation takes the hash as a parameter `Hasher` from strings to 32-byte digests.
- `kotlin.random.Random` is replaced by the turn's draws, given to `NextTurn` as `Rolls` in [0, 100).
- Battle.HitLands: the hit test is compared exactly over the rationals. The source computes the threshold `speedA / (speedA + speedD) * 100 + 20` as a `Float`, and the rounding of that `Float` is not modelled.
- The log is a list of structured `LogLine` events rather than rendered strings.
- Battle.BattleViewModel.LoadFighters: the two repository lookups run in a coroutine against the Room datastore. Their results are given as `Option` parameters, so the asynchrony is not modelled.
- The fallback note for a colour outside the palette (MusicUtils.kt lines 48-55) relies on Android's `colorToHSV` and float hue arithmetic. It is represented by the placeholder `HueFallback(color)`.
- Colours are HSV triples compared component-wise, standing in for Compose's packed `Color` values.
- The `Fighter` record omits `specialMoveType`: `generateStats` never supplies it. As a result, the equality-based toggle in FighterSelection compares records without that field.
- Audio playback, Compose rendering, navigation plumbing, camera and barcode scanning, and Room persistence are platform code, not logic.
- The older screens under `screens/` are stubs and not part of this model.
- Win/loss updates after a battle, special moves and status effects other than stun do not exist in the source engine, so they are not modelled.
- The source contains inconsistencies that are not resolved here. `LeaderboardScreen.kt` line 221 passes a barcode `String` to `generateMusicalSignature`, which takes a colour list. `FighterRepository.kt` line 17 calls a DAO method `addFighter` that the DAO does not declare.
- Calling the generator twice on the same barcode gives the same result. This holds by construction, since the generator is a Dafny function of the barcode and the hash. The colour signature method's postcondition fixes its result completely.

## Findings

The main model keeps the shipped formulas, so that it describes what the
app does. The corrected definitions sit beside them, with their intended
ranges proved and their agreement with the shipped formulas on every other
seed.

| source | as written | input that shows it | evidently intended | confidence | as-written member | corrected member |
|---|---|---|---|---|---|---|
| app/src/main/java/com/catto/scanfighter/utils/FighterStatsGenerator.kt:21 | `50 + (abs(seed) % 51)`: `abs(Long.MIN_VALUE)` stays negative and `%` keeps its sign | seed `Long.MIN_VALUE` (digest starting `80 00 00 00 00 00 00 00`) gives health 24 | health in [50,100] for every seed, e.g. `abs(seed % 51)`, which gives 76 there | not executed | StatsGenerator.MinSeedHealth | StatsGenerator.StatsFromSeedCorrected |
| app/src/main/java/com/catto/scanfighter/utils/FighterStatsGenerator.kt:48 | `abs(seed shr (i * 3)) % 12`: with a zero masked distance the same overflow appears | seed `Long.MIN_VALUE`, i = 0 (also 64, 128, ...) gives index -8, and `COLOR_PALETTE[-8]` throws | every index in [0,12), e.g. `abs((seed shr (i * 3)) % 12)` | not executed | StatsGenerator.MinSeedColorIndex | StatsGenerator.ColorIndexCorrected |
