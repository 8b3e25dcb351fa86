/**
 * The configuration rules of assets/js/bossfight.js: what `saveCfg` does with the
 * values of the settings dialog, the settings record it persists, and how `loadCfg`
 * patches the state from a stored record. The dialog's inputs and the stored JSON
 * are parameters here; reading and writing the browser's storage is not modelled.
 */
module FightConfig {
  import opened Wrappers
  import opened FightModel

  /** The result of `parseInt(v, 10)`: not a number, or an integer. */
  datatype IntParse = NaN | Int(n: int)

  /** `parsed || fallback`: NaN and 0 are falsy, so both fall back. */
  function OrElse(p: IntParse, fallback: int): (r: int)
    ensures p.Int? && p.n != 0 ==> r == p.n
    ensures (p.NaN? || p.n == 0) ==> r == fallback
  {
    if p.Int? && p.n != 0 then p.n else fallback
  }

  /** `SUBJECT_NAMES`. */
  const SubjectNames: map<string, string> :=
    map["math" := "Number Dragon", "phonics" := "Phonics Wizard", "story-comprehension" := "Story Sphinx"]

  /** `SUBJECT_NAMES[subject] || subject`. */
  function SuggestedName(subject: string): string
  {
    if subject in SubjectNames then SubjectNames[subject] else subject
  }

  /** One guild block of the dialog: the trimmed name, the colour and the parsed heart count. */
  datatype GuildForm = GuildForm(name: string, color: string, hearts: IntParse)

  /**
   * The dialog as `saveCfg` reads it: the trimmed boss name, the parsed boss HP, the
   * subject and background selects (None when the element is missing) and one block per guild.
   */
  datatype CfgForm = CfgForm(bossName: string, bossHP: IntParse, subject: Option<string>,
                             background: Option<string>, guilds: seq<GuildForm>)

  /** The synchronous state part of `setSubjectImages(subject)`; the images and sounds load later. */
  function ApplySubject(s: FightState, subject: string): (r: FightState)
    ensures subject == "" ==> r == s
    ensures subject != "" ==> r == s.(bossSubject := subject, bossName := r.bossName)
    ensures subject != "" ==> r.bossName == if s.bossNameLocked then s.bossName else SuggestedName(subject)
  {
    if subject == "" then s
    else s.(bossSubject := subject, bossName := if s.bossNameLocked then s.bossName else SuggestedName(subject))
  }

  /** The state part of `applyBackground(name)`. */
  function BackgroundName(name: string): string
  {
    if name == "" || name == DefaultBackground then DefaultBackground else name
  }

  /**
   * One guild of the `forEach` in `saveCfg`: an empty name or colour keeps the old one,
   * the heart count falls back to the old one when it is NaN or 0, and hp is capped by it.
   */
  function PatchGuild(g: Guild, f: GuildForm): (r: Guild)
    ensures r.hits == g.hits
    ensures r.hpMax == OrElse(f.hearts, g.hpMax)
    ensures r.hp == Min(g.hp, r.hpMax)
    ensures r.name == (if f.name == "" then g.name else f.name)
    ensures r.color == (if f.color == "" then g.color else f.color)
  {
    var n := OrElse(f.hearts, g.hpMax);
    g.(name := if f.name == "" then g.name else f.name,
       color := if f.color == "" then g.color else f.color,
       hpMax := n, hp := Min(g.hp, n))
  }

  function PatchGuilds(gs: seq<Guild>, fs: seq<GuildForm>): (rs: seq<Guild>)
    requires |gs| <= |fs|
    ensures |rs| == |gs|
    ensures forall k :: 0 <= k < |gs| ==> rs[k] == PatchGuild(gs[k], fs[k])
  {
    seq(|gs|, k requires 0 <= k < |gs| => PatchGuild(gs[k], fs[k]))
  }

  /** The boss HP the dialog asks for: NaN becomes 8 (a 0 is kept, as `isNaN` is the test), then clamped into 1..20. */
  function BossHPMaxFrom(p: IntParse): (m: int)
    ensures 1 <= m <= 20
    ensures p.Int? && 1 <= p.n <= 20 ==> m == p.n
    ensures p.NaN? ==> m == 8
  {
    Clamp(match p case NaN => 8 case Int(n) => n, 1, 20)
  }

  /** The head of `saveCfg`: the boss name (empty means "Boss"), its lock, and the boss HP maximum. */
  function PatchBoss(s: FightState, f: CfgForm): (r: FightState)
    ensures r.bossHPMax == BossHPMaxFrom(f.bossHP) && r.bossHP == Min(s.bossHP, r.bossHPMax)
    ensures r.bossName != "" && r.bossNameLocked == (r.bossName != SuggestedName(s.bossSubject))
  {
    var name := if f.bossName == "" then "Boss" else f.bossName;
    var m := BossHPMaxFrom(f.bossHP);
    s.(bossNameLocked := name != SuggestedName(s.bossSubject), bossName := name, bossHPMax := m, bossHP := Min(s.bossHP, m))
  }

  /** The subject and background selects of `saveCfg`; a missing select changes nothing. */
  function PatchLooks(s: FightState, f: CfgForm): (r: FightState)
    ensures r.bossSubject == if f.subject.Some? && f.subject.value != "" then f.subject.value else s.bossSubject
    ensures r.bgName == if f.background.Some? then BackgroundName(f.background.value) else s.bgName
  {
    var s3 := if f.subject.Some? then ApplySubject(s, f.subject.value) else s;
    if f.background.Some? then s3.(bgName := BackgroundName(f.background.value)) else s3
  }

  /** The scalar part of `saveCfg`, in the order the source sets the fields. */
  function PatchScalars(s: FightState, f: CfgForm): (r: FightState)
    ensures r.guilds == s.guilds && r.history == s.history && r.lastHit == s.lastHit
    ensures r.bossHPMax == BossHPMaxFrom(f.bossHP) && r.bossHP == Min(s.bossHP, r.bossHPMax)
    ensures r.bossSubject == if f.subject.Some? && f.subject.value != "" then f.subject.value else s.bossSubject
  {
    PatchLooks(PatchBoss(s, f), f)
  }

  /** `saveCfg` up to its final decision: the scalar fields, then the guilds. */
  function Patch(s: FightState, f: CfgForm): FightState
    requires |s.guilds| <= |f.guilds|
  {
    var t := PatchScalars(s, f);
    t.(guilds := PatchGuilds(t.guilds, f.guilds))
  }

  /** The reset rule of `saveCfg`: a changed subject or boss HP maximum needs a fresh fight. */
  predicate NeedsReset(before: FightState, after: FightState)
  {
    before.bossSubject != after.bossSubject || before.bossHPMax != after.bossHPMax
  }

  /** `saveCfg()`: patch the state, then reset the fight iff the subject or the boss HP maximum changed. */
  function SaveCfg(s: FightState, f: CfgForm): (r: FightState)
    requires |s.guilds| <= |f.guilds|
    ensures |r.guilds| == |s.guilds|
    ensures r.bossHPMax == BossHPMaxFrom(f.bossHP) && 1 <= r.bossHPMax <= 20
    ensures r.bossName != ""
    ensures r.bossSubject == if f.subject.Some? && f.subject.value != "" then f.subject.value else s.bossSubject
    ensures r.imgs == s.imgs && r.quiz == s.quiz && r.timer == s.timer
    ensures var typed := if f.bossName == "" then "Boss" else f.bossName;
      r.bossName == if f.subject.Some? && f.subject.value != "" && typed == SuggestedName(s.bossSubject)
                    then SuggestedName(f.subject.value) else typed
    ensures forall k :: 0 <= k < |s.guilds| ==>
      && r.guilds[k].hpMax == OrElse(f.guilds[k].hearts, s.guilds[k].hpMax)
      && r.guilds[k].name == (if f.guilds[k].name == "" then s.guilds[k].name else f.guilds[k].name)
      && r.guilds[k].color == (if f.guilds[k].color == "" then s.guilds[k].color else f.guilds[k].color)
    ensures NeedsReset(s, r) ==>
      && r.bossHP == r.bossHPMax && r.lastHit == None && r.history == []
      && forall k :: 0 <= k < |s.guilds| ==> r.guilds[k].hp == r.guilds[k].hpMax && r.guilds[k].hits == 0
    ensures !NeedsReset(s, r) ==>
      && r.bossHP == Min(s.bossHP, r.bossHPMax) && r.lastHit == s.lastHit && r.history == s.history
      && forall k :: 0 <= k < |s.guilds| ==>
           r.guilds[k].hp == Min(s.guilds[k].hp, r.guilds[k].hpMax) && r.guilds[k].hits == s.guilds[k].hits
  {
    var p := Patch(s, f);
    if NeedsReset(s, p) then Reset(p) else p
  }

  /** Heart counts that keep guilds well formed: the dialog's select offers 2 to 5, so none is negative. */
  predicate HeartsOk(fs: seq<GuildForm>)
  {
    forall k :: 0 <= k < |fs| ==> fs[k].hearts.NaN? || fs[k].hearts.n >= 0
  }

  lemma SaveCfgKeepsInvariant(s: FightState, f: CfgForm)
    requires Invariant(s) && |s.guilds| <= |f.guilds| && HeartsOk(f.guilds)
    ensures Invariant(SaveCfg(s, f))
  {
    var p := Patch(s, f);
    assert forall k :: 0 <= k < |p.guilds| ==> GuildOk(p.guilds[k]) by {
      forall k | 0 <= k < |p.guilds| ensures GuildOk(p.guilds[k]) {
        assert GuildOk(s.guilds[k]);
      }
    }
    assert Invariant(p);
    if NeedsReset(s, p) { ResetKeepsInvariant(p); }
  }

  // ----- Persisted settings -----

  datatype GuildSettings = GuildSettings(name: string, color: string, hpMax: int)

  /** The object `saveCfg` writes under the key "bossfight_settings". */
  datatype Settings = Settings(bossName: string, bossHPMax: int, imgs: map<string, Option<string>>,
                               bossSubject: string, bossNameLocked: bool, bgName: string,
                               guilds: seq<GuildSettings>)

  function Persisted(s: FightState): (p: Settings)
    ensures |p.guilds| == |s.guilds|
    ensures forall k :: 0 <= k < |s.guilds| ==>
      p.guilds[k] == GuildSettings(s.guilds[k].name, s.guilds[k].color, s.guilds[k].hpMax)
  {
    Settings(s.bossName, s.bossHPMax, s.imgs, s.bossSubject, s.bossNameLocked, s.bgName,
             seq(|s.guilds| , k requires 0 <= k < |s.guilds| =>
               GuildSettings(s.guilds[k].name, s.guilds[k].color, s.guilds[k].hpMax)))
  }

  /** The settings are written before the reset, which touches none of them. */
  lemma SavedBeforeReset(s: FightState, f: CfgForm)
    requires |s.guilds| <= |f.guilds|
    ensures Persisted(SaveCfg(s, f)) == Persisted(Patch(s, f))
  {
    var p := Patch(s, f);
    assert Persisted(Reset(p)).guilds == Persisted(p).guilds;
  }

  // ----- loadCfg -----

  /** One stored guild; "" and 0 stand for falsy values, which keep the current field. */
  datatype StoredGuild = StoredGuild(name: string, color: string, hpMax: int)

  /**
   * The parsed settings object as `loadCfg` reads it: "" for a missing or empty string,
   * None for a missing field, `bossHPMax` as the parseInt of a truthy value.
   */
  datatype StoredCfg = StoredCfg(bossName: string, bossNameLocked: Option<bool>,
                                 bossHPMax: Option<IntParse>, imgs: Option<map<string, Option<string>>>,
                                 bossSubject: string, bgName: string, guilds: Option<seq<StoredGuild>>)

  function LoadGuild(g: Guild, c: StoredGuild): (r: Guild)
    ensures r.hits == g.hits && r.hp == r.hpMax
    ensures r.hpMax == if c.hpMax == 0 then g.hpMax else c.hpMax
  {
    var m := if c.hpMax == 0 then g.hpMax else c.hpMax;
    g.(name := if c.name == "" then g.name else c.name,
       color := if c.color == "" then g.color else c.color,
       hpMax := m, hp := m)
  }

  /** `cfg.guilds.forEach((g, i) => { if (state.guilds[i]) ... })`: only guilds that exist are patched. */
  function LoadGuilds(gs: seq<Guild>, cs: seq<StoredGuild>): (rs: seq<Guild>)
    ensures |rs| == |gs|
    ensures forall k :: 0 <= k < |gs| ==> rs[k] == if k < |cs| then LoadGuild(gs[k], cs[k]) else gs[k]
  {
    seq(|gs|, k requires 0 <= k < |gs| => if k < |cs| then LoadGuild(gs[k], cs[k]) else gs[k])
  }

  /** The boss fields of `loadCfg`: a truthy stored name, lock or HP maximum replaces the current one; the boss is healed. */
  function LoadBoss(s: FightState, c: StoredCfg): (r: FightState)
    ensures r.guilds == s.guilds && r.history == s.history && r.lastHit == s.lastHit
    ensures c.bossHPMax.Some? ==>
      r.bossHPMax == Clamp(OrElse(c.bossHPMax.value, 8), 1, 20) && r.bossHP == r.bossHPMax
    ensures c.bossHPMax.None? ==> r.bossHPMax == s.bossHPMax && r.bossHP == s.bossHP
  {
    var s1 := if c.bossName != "" then s.(bossName := c.bossName) else s;
    var s2 := if c.bossNameLocked.Some? then s1.(bossNameLocked := c.bossNameLocked.value) else s1;
    if c.bossHPMax.Some? then
      var m := Clamp(OrElse(c.bossHPMax.value, 8), 1, 20); s2.(bossHPMax := m, bossHP := m)
    else s2
  }

  /** The remaining scalar fields of `loadCfg`: stored images are merged over the current ones. */
  function LoadLooks(s: FightState, c: StoredCfg): (r: FightState)
    ensures r.imgs == if c.imgs.Some? then s.imgs + c.imgs.value else s.imgs
    ensures r.guilds == s.guilds && r.history == s.history && r.lastHit == s.lastHit
    ensures r.bossHPMax == s.bossHPMax && r.bossHP == s.bossHP
  {
    var s4 := if c.imgs.Some? then s.(imgs := s.imgs + c.imgs.value) else s;
    var s5 := if c.bossSubject != "" then s4.(bossSubject := c.bossSubject) else s4;
    if c.bgName != "" then s5.(bgName := c.bgName) else s5
  }

  /** The scalar fields of `loadCfg`: each truthy stored value replaces the current one. */
  function LoadFields(s: FightState, c: StoredCfg): (r: FightState)
    ensures r.guilds == s.guilds && r.history == s.history && r.lastHit == s.lastHit
    ensures c.bossHPMax.Some? ==>
      r.bossHPMax == Clamp(OrElse(c.bossHPMax.value, 8), 1, 20) && r.bossHP == r.bossHPMax
    ensures c.bossHPMax.None? ==> r.bossHPMax == s.bossHPMax && r.bossHP == s.bossHP
  {
    LoadLooks(LoadBoss(s, c), c)
  }

  /** `loadCfg()` with the parsed record, or None when nothing is stored or it does not parse. */
  function LoadCfg(s: FightState, raw: Option<StoredCfg>): (r: FightState)
    ensures raw.None? ==> r == s
    ensures |r.guilds| == |s.guilds|
    ensures r.history == s.history && r.lastHit == s.lastHit
    ensures raw.Some? && raw.value.bossHPMax.Some? ==>
      && r.bossHPMax == Clamp(OrElse(raw.value.bossHPMax.value, 8), 1, 20)
      && 1 <= r.bossHPMax <= 20 && r.bossHP == r.bossHPMax
    ensures raw.Some? && raw.value.bossHPMax.None? ==> r.bossHPMax == s.bossHPMax && r.bossHP == s.bossHP
    ensures forall k :: 0 <= k < |s.guilds| ==> r.guilds[k].hits == s.guilds[k].hits
    ensures raw.Some? && raw.value.guilds.Some? ==> forall k :: 0 <= k < |s.guilds| ==>
      if k < |raw.value.guilds.value| then r.guilds[k].hp == r.guilds[k].hpMax else r.guilds[k] == s.guilds[k]
    ensures (raw.None? || raw.value.guilds.None?) ==> r.guilds == s.guilds
  {
    match raw
    case None => s
    case Some(c) =>
      var t := LoadFields(s, c);
      if c.guilds.Some? then t.(guilds := LoadGuilds(t.guilds, c.guilds.value)) else t
  }

  /** Stored heart counts that keep guilds well formed (saveCfg only ever writes positive ones). */
  predicate StoredHeartsOk(raw: Option<StoredCfg>)
  {
    raw.Some? && raw.value.guilds.Some? ==>
      forall k :: 0 <= k < |raw.value.guilds.value| ==> raw.value.guilds.value[k].hpMax >= 0
  }

  lemma LoadCfgKeepsInvariant(s: FightState, raw: Option<StoredCfg>)
    requires Invariant(s) && StoredHeartsOk(raw)
    ensures Invariant(LoadCfg(s, raw))
  {
    var r := LoadCfg(s, raw);
    forall k | 0 <= k < |r.guilds| ensures GuildOk(r.guilds[k]) {
      assert GuildOk(s.guilds[k]);
    }
  }

  /** What `JSON.parse(JSON.stringify(settings))` hands to `loadCfg`. */
  function Reread(p: Settings): StoredCfg
  {
    StoredCfg(p.bossName, Some(p.bossNameLocked), Some(Int(p.bossHPMax)), Some(p.imgs),
              p.bossSubject, p.bgName,
              Some(seq(|p.guilds|, k requires 0 <= k < |p.guilds| =>
                         StoredGuild(p.guilds[k].name, p.guilds[k].color, p.guilds[k].hpMax))))
  }

  /** Settings whose values are all truthy, as every one that `saveCfg` writes from a well-formed state. */
  predicate Truthy(p: Settings)
  {
    && p.bossName != "" && 1 <= p.bossHPMax <= 20 && p.bossSubject != "" && p.bgName != ""
    && forall k :: 0 <= k < |p.guilds| ==>
         p.guilds[k].name != "" && p.guilds[k].color != "" && p.guilds[k].hpMax != 0
  }

  /**
   * Loading saved settings into a state with as many guilds gives back every saved value
   * (images are merged over the current ones) with full hearts for the boss and every guild.
   */
  lemma {:induction false} LoadRestoresSaved(s: FightState, p: Settings)
    requires Truthy(p) && |p.guilds| == |s.guilds|
    ensures var r := LoadCfg(s, Some(Reread(p)));
      && Persisted(r) == p.(imgs := s.imgs + p.imgs)
      && r.bossHP == r.bossHPMax
      && forall k :: 0 <= k < |r.guilds| ==> r.guilds[k].hp == r.guilds[k].hpMax
  {
    var r := LoadCfg(s, Some(Reread(p)));
    var c := Reread(p);
    assert |c.guilds.value| == |p.guilds|;
    forall k | 0 <= k < |r.guilds| ensures Persisted(r).guilds[k] == p.guilds[k] {
      assert c.guilds.value[k] == StoredGuild(p.guilds[k].name, p.guilds[k].color, p.guilds[k].hpMax);
      assert r.guilds[k] == LoadGuild(s.guilds[k], c.guilds.value[k]);
    }
    assert Persisted(r).guilds == p.guilds;
  }
}
