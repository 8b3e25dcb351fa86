/**
 * The fight engine of assets/js/bossfight.js as an object whose fields the handlers
 * update in place. Every method is proved to move the object from `old(State())` to the
 * state the matching function of FightModel / FightConfig computes, so the lemmas proved
 * there (round trips, invariant preservation, reset rules) hold of the object too.
 */
module FightEngine {
  import opened Wrappers
  import opened FightModel
  import opened FightConfig
  import opened Victory

  /** What a hit leads to: nothing, the hit image, or the victory banner with its report. */
  datatype HitEvent = HitBlocked | Landed | BossDefeated(report: Report)

  /** What a miss leads to: the "already KO'd" log line, the attack image, or `onDefeat`. */
  datatype MissEvent = AlreadyKnockedOut | Missed | AllGuildsDown

  class Fight {
    var bossName: string
    var bossHPMax: int
    var bossHP: int
    var guilds: seq<Guild>
    var imgs: map<string, Option<string>>
    var bossSubject: string
    var bossNameLocked: bool
    var quiz: Quiz
    var timer: Timer
    var lastHit: Option<int>
    var history: seq<Snapshot>
    var bgName: string

    /** The value of all fields together. */
    function State(): FightState
      reads this
    {
      FightState(bossName, bossHPMax, bossHP, guilds, imgs, bossSubject, bossNameLocked, quiz, timer,
                 lastHit, history, bgName)
    }

    ghost predicate Valid()
      reads this
    {
      Invariant(State())
    }

    /** The `state` literal, with `bgName` defaulted as the boot code does. */
    constructor (color1: string, color2: string, color3: string)
      ensures State() == Initial(color1, color2, color3)
      ensures Valid()
    {
      bossName := "Ancient Drake";
      bossHPMax, bossHP := 8, 8;
      guilds := [Guild("Yellow Guild", color1, 3, 3, 0), Guild("Blue Guild", color2, 3, 3, 0),
                 Guild("Purple Guild", color3, 3, 3, 0)];
      imgs := map["base" := None, "attack" := None, "hit" := None, "defeat" := None];
      bossSubject := "math";
      bossNameLocked := false;
      quiz := Quiz(false, 1);
      timer := Timer(false, false, 0.0, 0.0);
      lastHit, history := None, [];
      bgName := DefaultBackground;
    }

    /** `actHit(gIndex)`. */
    method ActHit(g: int) returns (e: HitEvent)
      requires 0 <= g < |guilds|
      modifies this
      ensures State() == Hit(old(State()), g)
      ensures old(Valid()) ==> Valid()
      ensures e == if old(bossHP) <= 0 then HitBlocked
                   else if bossHP == 0 then BossDefeated(Attribution(State()))
                   else Landed
    {
      ghost var s := State();
      if bossHP <= 0 {
        return HitBlocked;
      }
      var prev := Capture(State());
      bossHP := Clamp(bossHP - 1, 0, bossHPMax);
      var gd := guilds[g];
      guilds := guilds[g := gd.(hits := gd.hits + 1)];
      lastHit := Some(g);
      history := history + [prev];
      if bossHP == 0 {
        e := BossDefeated(Attribution(State()));
      } else {
        e := Landed;
      }
      assert State() == Hit(s, g);
      ghost var r := State();
      if Invariant(s) { HitKeepsInvariant(s, g); assert Invariant(r); }
    }

    /** `actMiss(gIndex)`. */
    method ActMiss(g: int) returns (e: MissEvent)
      requires 0 <= g < |guilds|
      modifies this
      ensures State() == Miss(old(State()), g)
      ensures old(Valid()) ==> Valid()
      ensures e == if old(guilds[g].hp) <= 0 then AlreadyKnockedOut
                   else if AllKnockedOut(guilds) then AllGuildsDown
                   else Missed
    {
      ghost var s := State();
      var gd := guilds[g];
      if gd.hp <= 0 {
        return AlreadyKnockedOut;
      }
      var prev := Capture(State());
      guilds := guilds[g := gd.(hp := Clamp(gd.hp - 1, 0, gd.hpMax))];
      history := history + [prev];
      if forall k :: 0 <= k < |guilds| ==> guilds[k].hp <= 0 {
        e := AllGuildsDown;
      } else {
        e := Missed;
      }
      assert State() == Miss(s, g);
      ghost var r := State();
      if Invariant(s) { MissKeepsInvariant(s, g); assert Invariant(r); }
    }

    /** The assignments of `undo()` that copy a snapshot's fields back. */
    method RestoreFrom(p: Snapshot)
      modifies this
      ensures State() == Restore(old(State()), p)
    {
      bossName, bossHPMax, bossHP, guilds := p.bossName, p.bossHPMax, p.bossHP, p.guilds;
      imgs, quiz, timer, lastHit := p.imgs, p.quiz, p.timer, p.lastHit;
    }

    /** `undo()`: pop the newest snapshot and assign its fields back. */
    method Undo()
      modifies this
      ensures State() == FightModel.Undo(old(State()))
      ensures old(Valid()) ==> Valid()
    {
      ghost var s := State();
      if history == [] {
        return;
      }
      var prev := history[|history| - 1];
      history := history[..|history| - 1];
      RestoreFrom(prev);
      ghost var r := State();
      assert r == FightModel.Undo(s);
      if Invariant(s) { UndoKeepsInvariant(s); assert Invariant(r); }
    }

    /** `resetFight()`: the `forEach` over the guilds becomes a loop. */
    method ResetFight()
      modifies this
      ensures State() == Reset(old(State()))
      ensures old(Valid()) ==> Valid()
    {
      ghost var s := State();
      bossHP := bossHPMax;
      var i := 0;
      while i < |guilds|
        invariant 0 <= i <= |guilds| == |s.guilds|
        invariant forall k :: 0 <= k < i ==> guilds[k] == ResetGuild(s.guilds[k])
        invariant forall k :: i <= k < |guilds| ==> guilds[k] == s.guilds[k]
        invariant State() == s.(bossHP := s.bossHPMax, guilds := guilds)
      {
        guilds := guilds[i := guilds[i].(hp := guilds[i].hpMax, hits := 0)];
        i := i + 1;
      }
      lastHit := None;
      history := [];
      assert guilds == ResetGuilds(s.guilds);
      assert State() == Reset(s);
      ghost var r := State();
      if Invariant(s) { ResetKeepsInvariant(s); assert Invariant(r); }
    }

    /** The state part of `setSubjectImages(subject)`. */
    method SetSubjectImages(subject: string)
      modifies this
      ensures State() == ApplySubject(old(State()), subject)
    {
      if subject == "" {
        return;
      }
      bossSubject := subject;
      if !bossNameLocked {
        bossName := SuggestedName(subject);
      }
    }

    /** The boss name, its lock and the boss HP maximum, as `saveCfg()` sets them first. */
    method SaveBoss(f: CfgForm)
      modifies this
      ensures State() == PatchBoss(old(State()), f)
    {
      var newName := if f.bossName == "" then "Boss" else f.bossName;
      var suggested := SuggestedName(bossSubject);
      bossNameLocked := newName != suggested;
      bossName := newName;
      var hp := match f.bossHP case NaN => 8 case Int(n) => n;
      bossHPMax := Clamp(hp, 1, 20);
      bossHP := Min(bossHP, bossHPMax);
    }

    /** The subject and background selects of `saveCfg()`. */
    method SaveLooks(f: CfgForm)
      modifies this
      ensures State() == PatchLooks(old(State()), f)
    {
      if f.subject.Some? {
        SetSubjectImages(f.subject.value);
      }
      if f.background.Some? {
        bgName := BackgroundName(f.background.value);
      }
    }

    /** The `forEach` over the guild blocks of the dialog in `saveCfg()`. */
    method SaveGuilds(fs: seq<GuildForm>)
      requires |guilds| <= |fs|
      modifies this
      ensures State() == old(State()).(guilds := PatchGuilds(old(guilds), fs))
    {
      ghost var s := State();
      var i := 0;
      while i < |guilds|
        invariant 0 <= i <= |guilds| == |s.guilds|
        invariant forall k :: 0 <= k < i ==> guilds[k] == PatchGuild(s.guilds[k], fs[k])
        invariant forall k :: i <= k < |guilds| ==> guilds[k] == s.guilds[k]
        invariant State() == s.(guilds := guilds)
      {
        guilds := guilds[i := PatchGuild(guilds[i], fs[i])];
        i := i + 1;
      }
      assert guilds == PatchGuilds(s.guilds, fs);
    }

    /** `saveCfg()`: returns the settings record it writes to storage. */
    method SaveCfg(f: CfgForm) returns (saved: Settings)
      requires |guilds| <= |f.guilds|
      modifies this
      ensures State() == FightConfig.SaveCfg(old(State()), f)
      ensures saved == Persisted(State())
      ensures old(Valid()) && HeartsOk(f.guilds) ==> Valid()
    {
      ghost var s := State();
      var oldHP, oldSubject := bossHPMax, bossSubject;
      SaveBoss(f);
      SaveLooks(f);
      SaveGuilds(f.guilds);
      assert State() == Patch(s, f);
      saved := Persisted(State());
      if oldSubject != bossSubject || oldHP != bossHPMax {
        ResetFight();
      }
      ghost var r := State();
      assert r == FightConfig.SaveCfg(s, f);
      SavedBeforeReset(s, f);
      if Invariant(s) && HeartsOk(f.guilds) { SaveCfgKeepsInvariant(s, f); assert Invariant(r); }
    }

    /** The boss fields of `loadCfg()`. */
    method LoadBoss(c: StoredCfg)
      modifies this
      ensures State() == FightConfig.LoadBoss(old(State()), c)
    {
      if c.bossName != "" { bossName := c.bossName; }
      if c.bossNameLocked.Some? { bossNameLocked := c.bossNameLocked.value; }
      if c.bossHPMax.Some? {
        bossHPMax := Clamp(OrElse(c.bossHPMax.value, 8), 1, 20);
        bossHP := bossHPMax;
      }
    }

    /** The images, subject and background of `loadCfg()`. */
    method LoadLooks(c: StoredCfg)
      modifies this
      ensures State() == FightConfig.LoadLooks(old(State()), c)
    {
      if c.imgs.Some? { imgs := imgs + c.imgs.value; }
      if c.bossSubject != "" { bossSubject := c.bossSubject; }
      if c.bgName != "" { bgName := c.bgName; }
    }

    /** The `forEach` over the stored guilds in `loadCfg()`: only guilds that exist are patched. */
    method LoadGuildList(stored: seq<StoredGuild>)
      modifies this
      ensures State() == old(State()).(guilds := LoadGuilds(old(guilds), stored))
    {
      ghost var s := State();
      var i := 0;
      while i < |stored|
        invariant 0 <= i <= |stored|
        invariant |guilds| == |s.guilds|
        invariant forall k :: 0 <= k < |guilds| && k < i ==> guilds[k] == LoadGuild(s.guilds[k], stored[k])
        invariant forall k :: i <= k < |guilds| ==> guilds[k] == s.guilds[k]
        invariant State() == s.(guilds := guilds)
      {
        if i < |guilds| {
          guilds := guilds[i := LoadGuild(guilds[i], stored[i])];
        }
        i := i + 1;
      }
      assert guilds == LoadGuilds(s.guilds, stored);
    }

    /** `loadCfg()`: the scalar fields first, then the guilds. */
    method LoadCfg(raw: Option<StoredCfg>)
      modifies this
      ensures State() == FightConfig.LoadCfg(old(State()), raw)
      ensures old(Valid()) && StoredHeartsOk(raw) ==> Valid()
    {
      ghost var s := State();
      if raw.None? {
        return;
      }
      var c := raw.value;
      LoadBoss(c);
      LoadLooks(c);
      if c.guilds.Some? {
        LoadGuildList(c.guilds.value);
      }
      ghost var r := State();
      assert r == FightConfig.LoadCfg(s, raw);
      if Invariant(s) && StoredHeartsOk(raw) { LoadCfgKeepsInvariant(s, raw); assert Invariant(r); }
    }
  }

  /** A client of the class: a hit that lands and is then undone leaves the object as it was. */
  method HitThenUndo(f: Fight, g: int)
    requires 0 <= g < |f.guilds| && f.bossHP > 0
    modifies f
    ensures f.State() == old(f.State())
  {
    ghost var s := f.State();
    var _ := f.ActHit(g);
    f.Undo();
    UndoAfterHit(s, g);
  }
}
