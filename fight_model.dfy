/**
 * The fight state of the boss-fight scoreboard (assets/js/bossfight.js) as a value,
 * with the four transitions `actHit`, `actMiss`, `undo` and `resetFight` as functions
 * on it. The class FightEngine.Fight updates the same fields in place and is proved
 * against these functions.
 */
module FightModel {
  import opened Wrappers

  /** `clamp(n, a, b) = Math.max(a, Math.min(b, n))`. */
  function Clamp(n: int, lo: int, hi: int): (r: int)
    ensures lo <= hi ==> lo <= r <= hi
    ensures lo <= n <= hi ==> r == n
    ensures n < lo ==> r == lo
    ensures hi < n ==> r == if lo <= hi then hi else lo
  {
    var m := if hi < n then hi else n;
    if m < lo then lo else m
  }

  /** `Math.min(a, b)` on integers. */
  function Min(a: int, b: int): (r: int)
    ensures r <= a && r <= b
    ensures r == a || r == b
  {
    if a <= b then a else b
  }

  /** One guild record: `{ name, color, hpMax, hp, hits }`. */
  datatype Guild = Guild(name: string, color: string, hpMax: int, hp: int, hits: int)

  /** The question counter: `qEnabled` and `qNum`. */
  datatype Quiz = Quiz(enabled: bool, num: int)

  /** The stopwatch: `timerEnabled`, `timerRunning`, `startAt` and `elapsed` (milliseconds). */
  datatype Timer = Timer(enabled: bool, running: bool, startAt: real, elapsed: real)

  /**
   * What `snapshot()` serialises: every field it copies, guilds copied by value.
   * Fields the snapshot leaves out (subject, name lock, background, history) are
   * not restored by `undo`.
   */
  datatype Snapshot = Snapshot(
    bossName: string, bossHPMax: int, bossHP: int, guilds: seq<Guild>,
    imgs: map<string, Option<string>>, quiz: Quiz, timer: Timer, lastHit: Option<int>)

  /** The mutable `state` record (the image timer handle is left out). */
  datatype FightState = FightState(
    bossName: string, bossHPMax: int, bossHP: int, guilds: seq<Guild>,
    imgs: map<string, Option<string>>, bossSubject: string, bossNameLocked: bool,
    quiz: Quiz, timer: Timer, lastHit: Option<int>, history: seq<Snapshot>, bgName: string)

  const DefaultBackground := "__default__"

  /** The state at boot, before any saved configuration is loaded; the colours are read from the page's style sheet. */
  function Initial(color1: string, color2: string, color3: string): (s: FightState)
    ensures Invariant(s)
    ensures |s.guilds| == 3 && s.history == [] && s.lastHit == None
    ensures s.bossHP == s.bossHPMax == 8
    ensures forall k :: 0 <= k < 3 ==> s.guilds[k].hp == s.guilds[k].hpMax == 3 && s.guilds[k].hits == 0
  {
    FightState(
      "Ancient Drake", 8, 8,
      [Guild("Yellow Guild", color1, 3, 3, 0), Guild("Blue Guild", color2, 3, 3, 0),
       Guild("Purple Guild", color3, 3, 3, 0)],
      map["base" := None, "attack" := None, "hit" := None, "defeat" := None],
      "math", false, Quiz(false, 1), Timer(false, false, 0.0, 0.0), None, [], DefaultBackground)
  }

  // ----- Snapshots -----

  /** `snapshot()`: a deep copy of the restorable fields. */
  function Capture(s: FightState): Snapshot
  {
    Snapshot(s.bossName, s.bossHPMax, s.bossHP, s.guilds, s.imgs, s.quiz, s.timer, s.lastHit)
  }

  /** `Object.assign(state, JSON.parse(prev))`: overwrite the snapshotted fields, keep the rest. */
  function Restore(s: FightState, p: Snapshot): (r: FightState)
    ensures Capture(r) == p
    ensures r.history == s.history && r.bossSubject == s.bossSubject
    ensures r.bossNameLocked == s.bossNameLocked && r.bgName == s.bgName
  {
    FightState(p.bossName, p.bossHPMax, p.bossHP, p.guilds, p.imgs, s.bossSubject, s.bossNameLocked,
               p.quiz, p.timer, p.lastHit, s.history, s.bgName)
  }

  /** Restoring a state's own snapshot gives the state back. */
  lemma RestoreCapture(s: FightState)
    ensures Restore(s, Capture(s)) == s
  {
  }

  // ----- The invariant of every reachable state -----

  predicate GuildOk(g: Guild)
  {
    0 < g.hpMax && 0 <= g.hp <= g.hpMax && 0 <= g.hits
  }

  predicate SnapshotOk(p: Snapshot)
  {
    && 1 <= p.bossHPMax <= 20
    && 0 <= p.bossHP <= p.bossHPMax
    && |p.guilds| > 0
    && (forall k :: 0 <= k < |p.guilds| ==> GuildOk(p.guilds[k]))
    && (p.lastHit.Some? ==> 0 <= p.lastHit.value < |p.guilds|)
  }

  /** `0 <= bossHP <= bossHPMax`, `0 <= hp <= hpMax`, `hits >= 0`, for the live state and every stored snapshot. */
  predicate Invariant(s: FightState)
  {
    SnapshotOk(Capture(s)) && forall k :: 0 <= k < |s.history| ==> SnapshotOk(s.history[k])
  }

  // ----- Transitions -----

  /** `actHit(g)`: blocked at zero boss HP; otherwise one heart off the boss, one hit for guild g. */
  function Hit(s: FightState, g: int): (r: FightState)
    requires 0 <= g < |s.guilds|
    ensures s.bossHP <= 0 ==> r == s
    ensures s.bossHP > 0 ==>
      && r == s.(bossHP := r.bossHP, guilds := r.guilds, lastHit := Some(g), history := s.history + [Capture(s)])
      && 0 <= r.bossHP
      && (s.bossHP <= s.bossHPMax ==> r.bossHP == s.bossHP - 1)
      && (0 <= s.bossHPMax ==> r.bossHP <= r.bossHPMax)
      && |r.guilds| == |s.guilds|
      && r.guilds[g] == s.guilds[g].(hits := s.guilds[g].hits + 1)
      && (forall k :: 0 <= k < |s.guilds| && k != g ==> r.guilds[k] == s.guilds[k])
  {
    if s.bossHP <= 0 then s
    else
      var gd := s.guilds[g];
      s.(bossHP := Clamp(s.bossHP - 1, 0, s.bossHPMax),
         guilds := s.guilds[g := gd.(hits := gd.hits + 1)],
         lastHit := Some(g),
         history := s.history + [Capture(s)])
  }

  /** `actMiss(g)`: a knocked-out guild suffers nothing; otherwise it loses one heart. */
  function Miss(s: FightState, g: int): (r: FightState)
    requires 0 <= g < |s.guilds|
    ensures s.guilds[g].hp <= 0 ==> r == s
    ensures s.guilds[g].hp > 0 ==>
      && r == s.(guilds := r.guilds, history := s.history + [Capture(s)])
      && |r.guilds| == |s.guilds|
      && r.guilds[g] == s.guilds[g].(hp := r.guilds[g].hp)
      && 0 <= r.guilds[g].hp
      && (s.guilds[g].hp <= s.guilds[g].hpMax ==> r.guilds[g].hp == s.guilds[g].hp - 1)
      && (forall k :: 0 <= k < |s.guilds| && k != g ==> r.guilds[k] == s.guilds[k])
  {
    var gd := s.guilds[g];
    if gd.hp <= 0 then s
    else
      s.(guilds := s.guilds[g := gd.(hp := Clamp(gd.hp - 1, 0, gd.hpMax))],
         history := s.history + [Capture(s)])
  }

  /** `state.guilds.every(x => x.hp <= 0)`: the condition that triggers `onDefeat`. */
  predicate AllKnockedOut(gs: seq<Guild>)
  {
    forall k :: 0 <= k < |gs| ==> gs[k].hp <= 0
  }

  /** `undo()`: pop the newest snapshot and write it back; nothing happens on an empty history. */
  function Undo(s: FightState): (r: FightState)
    ensures s.history == [] ==> r == s
    ensures s.history != [] ==>
      && r.history == s.history[..|s.history| - 1]
      && Capture(r) == s.history[|s.history| - 1]
      && r.bossSubject == s.bossSubject && r.bossNameLocked == s.bossNameLocked && r.bgName == s.bgName
  {
    if s.history == [] then s
    else
      var n := |s.history|;
      Restore(s.(history := s.history[..n - 1]), s.history[n - 1])
  }

  function ResetGuild(g: Guild): Guild
  {
    g.(hp := g.hpMax, hits := 0)
  }

  function ResetGuilds(gs: seq<Guild>): (rs: seq<Guild>)
    ensures |rs| == |gs|
    ensures forall k :: 0 <= k < |gs| ==> rs[k] == ResetGuild(gs[k])
  {
    seq(|gs|, k requires 0 <= k < |gs| => ResetGuild(gs[k]))
  }

  /** `resetFight()`: full hearts everywhere, no hits, no final blow, empty history. */
  function Reset(s: FightState): (r: FightState)
    ensures r == s.(bossHP := s.bossHPMax, guilds := r.guilds, lastHit := None, history := [])
    ensures |r.guilds| == |s.guilds|
    ensures forall k :: 0 <= k < |s.guilds| ==>
      && r.guilds[k].hp == r.guilds[k].hpMax && r.guilds[k].hits == 0
      && r.guilds[k].name == s.guilds[k].name && r.guilds[k].color == s.guilds[k].color
      && r.guilds[k].hpMax == s.guilds[k].hpMax
  {
    s.(bossHP := s.bossHPMax, guilds := ResetGuilds(s.guilds), lastHit := None, history := [])
  }

  // ----- Invariant preservation -----

  lemma HitKeepsInvariant(s: FightState, g: int)
    requires Invariant(s) && 0 <= g < |s.guilds|
    ensures Invariant(Hit(s, g))
  {
    var r := Hit(s, g);
    if s.bossHP > 0 {
      assert forall k :: 0 <= k < |r.guilds| ==> GuildOk(r.guilds[k]) by {
        forall k | 0 <= k < |r.guilds| ensures GuildOk(r.guilds[k]) {
          assert GuildOk(s.guilds[k]);
        }
      }
      assert forall k :: 0 <= k < |r.history| ==> SnapshotOk(r.history[k]) by {
        forall k | 0 <= k < |r.history| ensures SnapshotOk(r.history[k]) {
          if k < |s.history| { assert r.history[k] == s.history[k]; } else { assert r.history[k] == Capture(s); }
        }
      }
    }
  }

  lemma MissKeepsInvariant(s: FightState, g: int)
    requires Invariant(s) && 0 <= g < |s.guilds|
    ensures Invariant(Miss(s, g))
  {
    var r := Miss(s, g);
    if s.guilds[g].hp > 0 {
      assert forall k :: 0 <= k < |r.guilds| ==> GuildOk(r.guilds[k]) by {
        forall k | 0 <= k < |r.guilds| ensures GuildOk(r.guilds[k]) {
          assert GuildOk(s.guilds[k]);
        }
      }
      assert forall k :: 0 <= k < |r.history| ==> SnapshotOk(r.history[k]) by {
        forall k | 0 <= k < |r.history| ensures SnapshotOk(r.history[k]) {
          if k < |s.history| { assert r.history[k] == s.history[k]; } else { assert r.history[k] == Capture(s); }
        }
      }
    }
  }

  lemma UndoKeepsInvariant(s: FightState)
    requires Invariant(s)
    ensures Invariant(Undo(s))
  {
    if s.history != [] {
      var r := Undo(s);
      assert SnapshotOk(s.history[|s.history| - 1]);
      assert forall k :: 0 <= k < |r.history| ==> r.history[k] == s.history[k];
    }
  }

  lemma ResetKeepsInvariant(s: FightState)
    requires Invariant(s)
    ensures Invariant(Reset(s))
  {
    var r := Reset(s);
    forall k | 0 <= k < |r.guilds| ensures GuildOk(r.guilds[k]) {
      assert GuildOk(s.guilds[k]);
    }
  }

  // ----- Undo round trips -----

  /** Undoing a hit that landed gives back exactly the state before it. */
  lemma UndoAfterHit(s: FightState, g: int)
    requires 0 <= g < |s.guilds| && s.bossHP > 0
    ensures Undo(Hit(s, g)) == s
  {
    var h := Hit(s, g);
    assert h.history[..|h.history| - 1] == s.history;
  }

  /** Undoing a miss that cost a heart gives back exactly the state before it. */
  lemma UndoAfterMiss(s: FightState, g: int)
    requires 0 <= g < |s.guilds| && s.guilds[g].hp > 0
    ensures Undo(Miss(s, g)) == s
  {
    var m := Miss(s, g);
    assert m.history[..|m.history| - 1] == s.history;
  }

  // ----- Action sequences -----

  datatype Action = HitBy(g: int) | MissBy(g: int)

  predicate ActionsFit(acts: seq<Action>, n: nat)
  {
    forall k :: 0 <= k < |acts| ==> 0 <= acts[k].g < n
  }

  /** Whether action a changes the state (and pushes a snapshot) rather than being blocked. */
  predicate Effective(s: FightState, a: Action)
    requires 0 <= a.g < |s.guilds|
  {
    match a
    case HitBy(g) => s.bossHP > 0
    case MissBy(g) => s.guilds[g].hp > 0
  }

  function Step(s: FightState, a: Action): (r: FightState)
    requires 0 <= a.g < |s.guilds|
    ensures |r.guilds| == |s.guilds|
    ensures Effective(s, a) ==> Undo(r) == s
    ensures !Effective(s, a) ==> r == s
  {
    match a
    case HitBy(g) => if s.bossHP > 0 then UndoAfterHit(s, g); Hit(s, g) else Hit(s, g)
    case MissBy(g) => if s.guilds[g].hp > 0 then UndoAfterMiss(s, g); Miss(s, g) else Miss(s, g)
  }

  /** Apply the actions in order, as the buttons and keys would. */
  function Run(s: FightState, acts: seq<Action>): (r: FightState)
    requires ActionsFit(acts, |s.guilds|)
    ensures |r.guilds| == |s.guilds|
    decreases |acts|
  {
    if acts == [] then s else Run(Step(s, acts[0]), acts[1..])
  }

  /** How many of the actions changed the state, i.e. how many snapshots they pushed. */
  function Changes(s: FightState, acts: seq<Action>): nat
    requires ActionsFit(acts, |s.guilds|)
    decreases |acts|
  {
    if acts == [] then 0
    else (if Effective(s, acts[0]) then 1 else 0) + Changes(Step(s, acts[0]), acts[1..])
  }

  function UndoTimes(s: FightState, k: nat): FightState
  {
    if k == 0 then s else Undo(UndoTimes(s, k - 1))
  }

  /** One `undo` per state-changing action takes any run of hits and misses back to its start. */
  lemma {:induction false} UndoUnwindsRun(s: FightState, acts: seq<Action>)
    requires ActionsFit(acts, |s.guilds|)
    ensures UndoTimes(Run(s, acts), Changes(s, acts)) == s
    decreases |acts|
  {
    if acts != [] {
      var t := Step(s, acts[0]);
      assert ActionsFit(acts[1..], |t.guilds|) by {
        forall k | 0 <= k < |acts[1..]| ensures 0 <= acts[1..][k].g < |t.guilds| {
          assert acts[1..][k] == acts[k + 1];
        }
      }
      UndoUnwindsRun(t, acts[1..]);
    }
  }

  /** Snapshots already stored are never altered by later hits and misses: history only grows at its end. */
  lemma {:induction false} RunKeepsHistory(s: FightState, acts: seq<Action>)
    requires ActionsFit(acts, |s.guilds|)
    ensures |Run(s, acts).history| == |s.history| + Changes(s, acts)
    ensures Run(s, acts).history[..|s.history|] == s.history
    decreases |acts|
  {
    if acts != [] {
      var t := Step(s, acts[0]);
      assert ActionsFit(acts[1..], |t.guilds|) by {
        forall k | 0 <= k < |acts[1..]| ensures 0 <= acts[1..][k].g < |t.guilds| {
          assert acts[1..][k] == acts[k + 1];
        }
      }
      RunKeepsHistory(t, acts[1..]);
      assert t.history[..|s.history|] == s.history;
      var r := Run(s, acts);
      assert r == Run(t, acts[1..]);
      assert r.history[..|s.history|] == r.history[..|t.history|][..|s.history|];
    }
  }

  // ----- Reset forgets progress -----

  /** After `resetFight` no trace of a hit remains. */
  lemma ResetForgetsHit(s: FightState, g: int)
    requires 0 <= g < |s.guilds|
    ensures Reset(Hit(s, g)) == Reset(s)
  {
    var h := Hit(s, g);
    if s.bossHP > 0 {
      assert ResetGuilds(h.guilds) == ResetGuilds(s.guilds);
    }
  }

  /** After `resetFight` no trace of a miss remains. */
  lemma ResetForgetsMiss(s: FightState, g: int)
    requires 0 <= g < |s.guilds|
    ensures Reset(Miss(s, g)) == Reset(s)
  {
    var m := Miss(s, g);
    if s.guilds[g].hp > 0 {
      assert ResetGuilds(m.guilds) == ResetGuilds(s.guilds);
    }
  }

  /** Resetting twice is the same as resetting once. */
  lemma ResetIdempotent(s: FightState)
    ensures Reset(Reset(s)) == Reset(s)
  {
    assert ResetGuilds(ResetGuilds(s.guilds)) == ResetGuilds(s.guilds);
  }

  // ----- Terminal conditions -----

  /** Nine misses, three per guild, knock out three 3-heart guilds whatever the order. */
  lemma {:induction false} MissesKnockOut(s: FightState, acts: seq<Action>)
    requires |s.guilds| == 3 && forall k :: 0 <= k < 3 ==> s.guilds[k].hp == s.guilds[k].hpMax == 3
    requires ActionsFit(acts, 3)
    requires forall k :: 0 <= k < |acts| ==> acts[k].MissBy?
    requires forall g :: 0 <= g < 3 ==> CountMisses(acts, g) == 3
    ensures AllKnockedOut(Run(s, acts).guilds)
  {
    MissesLowerHp(s, acts);
  }

  function CountMisses(acts: seq<Action>, g: int): nat
  {
    if acts == [] then 0 else (if acts[0] == MissBy(g) then 1 else 0) + CountMisses(acts[1..], g)
  }

  /** Each miss takes one heart from its guild until that guild is knocked out. */
  lemma {:induction false} MissesLowerHp(s: FightState, acts: seq<Action>)
    requires ActionsFit(acts, |s.guilds|)
    requires forall k :: 0 <= k < |acts| ==> acts[k].MissBy?
    requires forall g :: 0 <= g < |s.guilds| ==> 0 <= s.guilds[g].hp <= s.guilds[g].hpMax
    ensures forall g :: 0 <= g < |s.guilds| ==>
      Run(s, acts).guilds[g].hp == if CountMisses(acts, g) <= s.guilds[g].hp then s.guilds[g].hp - CountMisses(acts, g) else 0
    decreases |acts|
  {
    if acts != [] {
      var t := Step(s, acts[0]);
      assert ActionsFit(acts[1..], |t.guilds|) by {
        forall k | 0 <= k < |acts[1..]| ensures 0 <= acts[1..][k].g < |t.guilds| {
          assert acts[1..][k] == acts[k + 1];
        }
      }
      assert forall k :: 0 <= k < |acts[1..]| ==> acts[1..][k].MissBy? by {
        forall k | 0 <= k < |acts[1..]| ensures acts[1..][k].MissBy? {
          assert acts[1..][k] == acts[k + 1];
        }
      }
      MissesLowerHp(t, acts[1..]);
    }
  }
}
