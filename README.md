# Classroom boss fight: the fight-state engine, the mirrored engine and the hash router

This project models, in Dafny, the core of a browser scoreboard for a classroom "boss fight":
teams ("guilds") land hits on a boss or miss and lose hearts.

## What is modelled

**The fight-state engine** (`assets/js/bossfight.js`) is in four modules:

- `FightModel` holds the single `state` record as the value `FightState`.
  - `snapshot()` is the deep copy `Snapshot`.
  - `actHit`, `actMiss`, `undo` and `resetFight` are functions on that value.
  - The module proves the invariant (`0 <= bossHP <= bossHPMax`, `0 <= hp <= hpMax`, `hits >= 0`, for the live state and every stored snapshot).
  - It proves the undo round trips, the unwinding of any run of actions, the growth-only history and the reset rules.
- `Victory` models the attribution of `onVictory`.
  - The stable descending sort is proved to be a permutation and to be ordered.
  - Its head is proved to be the first guild with the most hits.
  - A top contributor with no hits is reported as none.
  - The final blow is `lastHit`.
- `FightConfig` models the rules of `saveCfg` and `loadCfg`.
  - The dialog's values and the parsed stored record are parameters.
  - It covers the numeric clamping, the reset-or-patch decision, the settings record that is persisted, and the patching of existing guilds on load.
  - A load of saved settings gives back every saved value.
- `FightEngine` has the class `Fight`. It holds the same fields and its handlers update them in place.
  - Each method is proved to take `old(State())` to the state that the matching function computes.
  - `ActHit`, `ActMiss`, `Undo` and `ResetFight` keep the invariant. `SaveCfg` and `LoadCfg` keep it when no heart count, given or stored, is negative. The other methods make no claim about it.
  - The `forEach` loops of `resetFight`, `saveCfg` and `loadCfg` are `while` loops with their invariants.

Two optional parts of the same file are modelled as well:

- `ImageBounds` is the nested-loop scan for the alpha bounding box in `normalizeAndSetImage`.
  - `found` holds exactly when some pixel has alpha above 10.
  - The box is then the tightest one around all such pixels, and each side touches one of them.
- `BackgroundLabel` is the caption formatter for background file names.

**The mirrored engine** (`js/app.js`) is the module `Mirror`:

- its own smaller `state`, with `actHit` and `resetFight`, as functions and as the class `Engine`;
- the render at the end of both, which throws on every view without `#bossPane` (only the student pane has one), after the update;
- the `onValue` dispatch of a message read from the realtime database;
- the student pane's hit button, which acts locally and then broadcasts;
- the teacher dock's hit and reset buttons as written, which throw before they broadcast, and their corrected forms.

Nothing remembers message ids, so a message delivered k times acts k times.

**The hash router** (`js/router.js`) is the module `Router`. It covers the normalisation of `location.hash`, the route key before `?`, and the decision to render, redirect to `/login` or report an unknown route. The class `HashRouter` holds the routes table, the not-found handler and the user.

### Behaviour of the code worth knowing

- `actMiss` never checks the boss: misses still apply after a victory. Neither handler blocks after a defeat.
- `undo` restores only what `snapshot()` copied. The subject, the boss-name lock and the background keep their current values (`Object.assign` over a partial object).
- The relay payload key is `g`. A `hit` whose `payload.g` is not a number is ignored. A numeric but non-integer or out-of-range `g` lowers the boss HP and then throws.

### Representation choices

- `parseInt` results are `IntParse` (`NaN` or an integer).
- A falsy stored string or number is `""` or `0`. A field that may be absent is an `Option`.
- `typeof x === 'number'` is `Mirror.Num`: an integer, or any other number.
- The question counter fields (`qEnabled`, `qNum`) are grouped as `Quiz`. The timer fields (`timerEnabled`, `timerRunning`, `startAt`, `elapsed`) are grouped as `Timer`. `startAt` and `elapsed` are `real`.

## Model

| member | source | states |
|---|---|---|
| FightModel.Clamp | assets/js/bossfight.js:8 | the result lies in [lo, hi] when lo <= hi, is n inside the range, lo below it and hi above it |
| FightModel.Initial | assets/js/bossfight.js:114-129 | the boot state has three 3-heart guilds with no hits, an 8-heart boss, no history and no final blow, and satisfies the invariant |
| FightModel.Restore | assets/js/bossfight.js:333 | the restored state's snapshot is exactly the stored one; the history, subject, name lock and background are kept |
| FightModel.RestoreCapture | assets/js/bossfight.js:344-351 | restoring a state's own snapshot gives the same state: the snapshot copies every field undo writes back |
| FightModel.Hit | assets/js/bossfight.js:292-301 | with boss HP <= 0 nothing changes, history included; otherwise boss HP drops by exactly one and stays in [0, max], guild g gets one more hit, lastHit = g, one pre-hit snapshot is pushed, and nothing else changes |
| FightModel.Miss | assets/js/bossfight.js:303-312 | a knocked-out guild changes nothing; otherwise only guild g loses one heart (never below 0) and one pre-miss snapshot is pushed; boss HP, hits and lastHit are untouched |
| FightModel.Undo | assets/js/bossfight.js:331-336 | an empty history is a no-op; otherwise exactly the newest entry is popped, the rest of history is kept and the snapshotted fields are those of that entry |
| FightModel.Reset | assets/js/bossfight.js:338-342 | full hearts for the boss and every guild, no hits, no final blow, empty history; names, colours and maxima unchanged |
| FightModel.HitKeepsInvariant | assets/js/bossfight.js:292-301 | a hit keeps the HP bounds and non-negative hits of the state and of every snapshot |
| FightModel.MissKeepsInvariant | assets/js/bossfight.js:303-312 | a miss keeps the invariant |
| FightModel.UndoKeepsInvariant | assets/js/bossfight.js:331-336 | an undo keeps the invariant |
| FightModel.ResetKeepsInvariant | assets/js/bossfight.js:338-342 | a reset keeps the invariant |
| FightModel.UndoAfterHit | assets/js/bossfight.js:331-333 | undoing a hit that landed gives back exactly the state before it |
| FightModel.UndoAfterMiss | assets/js/bossfight.js:331-333 | undoing a miss that cost a heart gives back exactly the state before it |
| FightModel.Step | assets/js/bossfight.js:292-312 | a blocked action changes nothing; an effective one is undone by one undo |
| FightModel.UndoUnwindsRun | assets/js/bossfight.js:331-336 | for any run of hits and misses, one undo per state-changing action restores the starting state |
| FightModel.RunKeepsHistory | assets/js/bossfight.js:299 | a run pushes one snapshot per state-changing action and never alters the snapshots already stored |
| FightModel.ResetForgetsHit | assets/js/bossfight.js:339 | a reset after a hit equals a reset without it |
| FightModel.ResetForgetsMiss | assets/js/bossfight.js:339 | a reset after a miss equals a reset without it |
| FightModel.ResetIdempotent | assets/js/bossfight.js:339 | resetting twice equals resetting once |
| FightModel.MissesLowerHp | assets/js/bossfight.js:307 | after any run of misses each guild has lost one heart per miss aimed at it, down to 0 |
| FightModel.MissesKnockOut | assets/js/bossfight.js:311 | three misses per 3-heart guild, in any order, knock out every guild (the defeat condition) |
| Victory.SortByHitsSorts | assets/js/bossfight.js:317 | the sort is a permutation of the contributions and is ordered by descending hits |
| Victory.FirstMax | assets/js/bossfight.js:317-318 | a reference definition: an index with the most hits and no earlier index with as many |
| Victory.SortHeadIsFirstMax | assets/js/bossfight.js:317-318 | the stable sort puts the first guild with the most hits in front |
| Victory.Attribution | assets/js/bossfight.js:317-321 | the final blow is lastHit; the top contributor is none iff no guild has a hit; otherwise it is the lowest-index guild with the most hits, and its count is reported |
| Victory.TieGoesToLowerIndex | assets/js/bossfight.js:317-321 | with hits 2, 5, 5 guild 1 is the top contributor with 5 hits and the final blow stays with guild 0 |
| Victory.ThreeHitVictory | assets/js/bossfight.js:293-300 | three hits on a 3-heart boss end at 0 HP with the final blow by the last hitter |
| FightConfig.OrElse | assets/js/bossfight.js:403 | `parsed \|\| fallback`: a non-zero integer is kept, NaN and 0 fall back |
| FightConfig.ApplySubject | assets/js/bossfight.js:246-268 | an empty subject changes nothing; otherwise the subject is set and the boss name becomes the suggested name unless it is locked |
| FightConfig.PatchGuild | assets/js/bossfight.js:403 | an empty name or colour keeps the old one, the heart count falls back when NaN or 0, hp is capped by the new maximum, hits are kept |
| FightConfig.PatchGuilds | assets/js/bossfight.js:403 | every existing guild is patched by its own dialog block |
| FightConfig.BossHPMaxFrom | assets/js/bossfight.js:396-397 | the boss maximum lies in 1..20, NaN gives 8, any value in 1..20 is kept |
| FightConfig.PatchBoss | assets/js/bossfight.js:391-397 | the boss name is never empty, the lock is set iff it differs from the subject's suggestion, boss HP is capped by the new maximum |
| FightConfig.PatchLooks | assets/js/bossfight.js:398-399 | the subject changes only through a non-empty select, the background becomes the select's value or the default |
| FightConfig.PatchScalars | assets/js/bossfight.js:391-399 | the scalar part of saving leaves guilds, history and lastHit alone |
| FightConfig.SaveCfg | assets/js/bossfight.js:390-408 | the boss name is never empty: the typed name ("Boss" if empty), replaced by the new subject's suggestion when it equals the old suggestion; the subject is the selected one when non-empty, else the old one; images, quiz and timer are unchanged; the boss maximum is clamped, guild names, colours and maxima are patched; if the subject or boss maximum changed the fight is fully reset, otherwise boss and guild hp are only capped and hits, history and lastHit are kept |
| FightConfig.SaveCfgKeepsInvariant | assets/js/bossfight.js:396-406 | saving keeps the invariant when no heart count is negative |
| FightConfig.Persisted | assets/js/bossfight.js:404 | the stored record has one {name, color, hpMax} per guild |
| FightConfig.SavedBeforeReset | assets/js/bossfight.js:404-406 | what is stored is the same whether or not the reset follows |
| FightConfig.LoadGuild | assets/js/bossfight.js:420 | a loaded guild gets full hearts, keeps its hits and keeps its maximum when the stored one is 0 |
| FightConfig.LoadGuilds | assets/js/bossfight.js:420 | only guilds that exist are patched, the others are untouched, and the count never changes |
| FightConfig.LoadBoss | assets/js/bossfight.js:414-416 | a stored boss maximum is clamped into 1..20 (NaN or 0 gives 8) and heals the boss; without one both stay |
| FightConfig.LoadLooks | assets/js/bossfight.js:417-419 | stored images are merged over the current ones; guilds, history and boss HP stay |
| FightConfig.LoadFields | assets/js/bossfight.js:414-419 | the scalar part of loading leaves the guilds, the history and the final blow alone |
| FightConfig.LoadCfg | assets/js/bossfight.js:410-422 | nothing stored changes nothing; hits, history and lastHit are never touched; patched guilds get full hearts |
| FightConfig.LoadCfgKeepsInvariant | assets/js/bossfight.js:416-420 | loading keeps the invariant when no stored heart count is negative |
| FightConfig.LoadRestoresSaved | assets/js/bossfight.js:404-420 | loading saved settings gives back every saved value (images merged) with the boss and every guild at full hearts |
| FightEngine.Fight.constructor | assets/js/bossfight.js:114-129 | the new object holds the boot state and is valid |
| FightEngine.Fight.ActHit | assets/js/bossfight.js:292-301 | the fields become Hit of the old ones, validity is kept, and the event is blocked, landed, or the victory with its attribution exactly when boss HP reaches 0 |
| FightEngine.Fight.ActMiss | assets/js/bossfight.js:303-312 | the fields become Miss of the old ones, validity is kept, and defeat is reported iff every guild is now at hp <= 0 |
| FightEngine.Fight.RestoreFrom | assets/js/bossfight.js:333 | the copy assignments turn the fields into Restore of the old ones |
| FightEngine.Fight.Undo | assets/js/bossfight.js:331-336 | the fields become Undo of the old ones and validity is kept |
| FightEngine.Fight.ResetFight | assets/js/bossfight.js:338-342 | the loop leaves the fields at Reset of the old ones and validity is kept |
| FightEngine.Fight.SetSubjectImages | assets/js/bossfight.js:246-270 | the fields become ApplySubject of the old ones |
| FightEngine.Fight.SaveBoss | assets/js/bossfight.js:391-397 | the fields become PatchBoss of the old ones |
| FightEngine.Fight.SaveLooks | assets/js/bossfight.js:398-399 | the fields become PatchLooks of the old ones |
| FightEngine.Fight.SaveGuilds | assets/js/bossfight.js:403 | the loop patches exactly the guilds and nothing else |
| FightEngine.Fight.SaveCfg | assets/js/bossfight.js:390-408 | the fields become SaveCfg of the old ones, the returned record is what is stored, and validity is kept for non-negative heart counts |
| FightEngine.Fight.LoadBoss | assets/js/bossfight.js:414-416 | the fields become LoadBoss of the old ones |
| FightEngine.Fight.LoadLooks | assets/js/bossfight.js:417-419 | the fields become LoadLooks of the old ones |
| FightEngine.Fight.LoadGuildList | assets/js/bossfight.js:420 | the loop patches exactly the existing guilds with stored entries |
| FightEngine.Fight.LoadCfg | assets/js/bossfight.js:410-422 | the fields become LoadCfg of the old ones and validity is kept for non-negative stored heart counts |
| FightEngine.HitThenUndo | assets/js/bossfight.js:292-336 | a caller's hit that lands, followed by undo, leaves the object as it was |
| ImageBounds.AlphaIndexInRange | assets/js/bossfight.js:192 | every pixel's alpha index lies inside the RGBA buffer |
| ImageBounds.ContentBounds | assets/js/bossfight.js:191-193 | found iff some pixel has alpha above 10; if none, the start values (width, height, 0, 0); otherwise every such pixel lies in the box, the box is inside the image, and each side touches such a pixel |
| BackgroundLabel.ExtensionAtUnique | assets/js/bossfight.js:159 | the extension pattern can match at one position only |
| BackgroundLabel.StripExtension | assets/js/bossfight.js:159 | the name is cut at the position where the extension pattern matches, and kept whole when it matches nowhere |
| BackgroundLabel.CollapseSeparators | assets/js/bossfight.js:159 | no '-' or '_' remains and the text never grows |
| BackgroundLabel.CollapseWithoutSeparators | assets/js/bossfight.js:159 | a text without separators is left as it is |
| BackgroundLabel.CollapseRun | assets/js/bossfight.js:159 | a run of separators after a word becomes exactly one space |
| BackgroundLabel.CapitalizeWord | assets/js/bossfight.js:159 | the length is kept, only the first character is upper-cased |
| BackgroundLabel.SplitOnSpace | assets/js/bossfight.js:159 | split always gives at least one piece and no piece holds a space |
| BackgroundLabel.JoinSplit | assets/js/bossfight.js:159 | joining the pieces of a split with spaces gives the text back |
| BackgroundLabel.CapitalizeWordsPointwise | assets/js/bossfight.js:159 | split-capitalise-join upper-cases exactly the first character and each one after a space |
| BackgroundLabel.Label | assets/js/bossfight.js:159 | the caption is the extension-free, separator-collapsed name capitalised word by word, and holds no separator |
| Mirror.Initial | js/app.js:15-19 | the boot board is valid with three guilds and an 8-heart boss |
| Mirror.Hit | js/app.js:102-105 | the update of actHit before its render: at boss HP <= 0 nothing changes; otherwise boss HP drops by one, the guild at the index gets one hit, no hp changes, and the guild lookup throws iff the index is no existing guild |
| Mirror.Reset | js/app.js:109 | the boss and every guild back to full hearts, hits 0, names and maxima unchanged |
| Mirror.HitKeepsValid | js/app.js:102-107 | a hit keeps the HP bounds and non-negative hits |
| Mirror.ResetKeepsValid | js/app.js:109 | a reset keeps the board valid |
| Mirror.ResetForgetsHit | js/app.js:109 | a reset after a hit equals a reset without it |
| Mirror.ResetIdempotent | js/app.js:109 | resetting twice equals resetting once |
| Mirror.ActHitOn | js/app.js:102-107 | actHit with its render: the board is that of Hit, and it throws iff the boss has hearts and either the index is no guild or the view has no #bossPane |
| Mirror.ResetOn | js/app.js:109 | resetFight with its render: the board is Reset, and it throws iff the view has no #bossPane |
| Mirror.Dispatch | js/app.js:118-123 | no value does nothing; a hit command iff the action is 'hit' with a numeric payload.g (that g); a reset iff the action is 'reset'; everything else is ignored |
| Mirror.Apply | js/app.js:119-122 | an ignored message changes nothing and never throws; a hit changes the board as Hit and a reset as Reset, and each throws exactly as actHit and resetFight do on that view |
| Mirror.ApplyOnPane | js/app.js:121 | on the student pane a delivered hit is exactly Hit, throw included |
| Mirror.ApplyOffPane | js/app.js:66-67 | on a view without #bossPane a delivered reset, or a hit on a boss with hearts, always throws |
| Mirror.DispatchIgnoresIdAndTs | js/app.js:120-121 | the message id and time stamp never affect the outcome |
| Mirror.RepeatedHitLands | js/app.js:120-121 | the same hit delivered k times to a boss with at least k hearts lowers it by k and adds k hits to that guild only |
| Mirror.HitMessageDispatch | js/app.js:77 | the hit button's message dispatches to a hit of the same guild |
| Mirror.ResetMessageDispatch | js/app.js:96 | the reset button's message dispatches to a reset |
| Mirror.EchoLandsTwice | js/app.js:76-78 | a student-pane press whose own write is delivered back lands twice |
| Mirror.Engine.constructor | js/app.js:15-19 | the new object holds the boot board |
| Mirror.Engine.UpdateHit | js/app.js:102-105 | the fields and the thrown flag are exactly Hit of the old board |
| Mirror.Engine.ActHit | js/app.js:102-107 | the fields and the thrown flag are exactly ActHitOn of the old board on that view |
| Mirror.Engine.ResetBoard | js/app.js:109 | the loop leaves the fields at Reset of the old board |
| Mirror.Engine.ResetFight | js/app.js:109 | the fields and the thrown flag are exactly ResetOn of the old board on that view |
| Mirror.Engine.OnValue | js/app.js:118-123 | one delivery applies the dispatched command to the old board on the view shown, throw included |
| Mirror.Engine.PressHitButton | js/app.js:76-78 | the press hits that guild locally without a throw and sends the message that dispatches to the same hit |
| Mirror.Engine.PressTeacherHitAsWritten | js/app.js:95 | the teacher-dock hit handler as written throws, sends nothing and leaves the board different from what a working press gives |
| Mirror.Engine.PressTeacherHit | js/app.js:95 | the corrected teacher-dock hit, with the index from the button and the render guarded, hits that guild locally and sends the message that dispatches to the same hit |
| Mirror.Engine.PressResetAsWritten | js/app.js:96 | the reset button as written resets the board, then throws in the render and sends nothing |
| Mirror.Engine.PressReset | js/app.js:96 | the corrected reset button, with the render guarded, resets locally and sends the message that dispatches to a reset |
| Router.GetHash | js/router.js:17 | one leading '#' is removed, '/' is returned when nothing is left, the result is never empty |
| Router.GetHashNavigate | js/router.js:19 | navigating to a path makes getHash give that path back |
| Router.RouteKey | js/router.js:23 | the key is the longest prefix without '?', followed by '?' or the end |
| Router.QueryIgnored | js/router.js:23 | a query string after the path never changes the key |
| Router.Decide | js/router.js:21-29 | an unknown key goes to onNotFound if set, else nothing; a guarded route without a user redirects to /login; every other route renders once with the user and empty params; it never throws |
| Router.RedirectReachesLogin | js/router.js:27 | the redirect target renders when /login is an open route |
| Router.DecideAsWritten | js/router.js:24-28 | the lookup as written throws for an inherited Object.prototype name that is no route |
| Router.AsWrittenAgrees | js/router.js:24-25 | the code as written agrees with the corrected lookup on every key that is a route or no inherited name |
| Router.ToStringThrows | js/router.js:24-28 | "#toString" throws as written but goes to onNotFound when corrected |
| Router.HashRouter.constructor | js/router.js:8-10 | empty table, no not-found handler, no user |
| Router.HashRouter.DefineRoutes | js/router.js:12 | the table is replaced whole, the rest is kept |
| Router.HashRouter.SetNotFound | js/router.js:13 | the handler is replaced, the rest is kept |
| Router.HashRouter.SetUser | js/router.js:15 | the user is replaced, the rest is kept |
| Router.HashRouter.HandleRoute | js/router.js:21-29 | the decision is Decide, the corrected own-entry lookup, on the current fields; it equals the code as written (DecideAsWritten) iff the key is a route or no inherited name; a render is always of a route in the table with the user and empty params, and a guarded route renders only with a user |

## Left out

- Rendering and page effects (`renderHP`, `renderGuilds`, `renderBoss`, `logLine`, `buildDock`, dialogs, confetti, shake and flash) are outside the fight-state rules.
- `showTempImage` and the `imageTimer` handle are timers with no effect on the fight state.
- The canvas scaling in `normalizeAndSetImage` after the scan is browser canvas floating-point work. So are the boss size and position sliders, drag-pan and `readableTextColor`.
- Sound (WebAudio, `loadSfxForSubject`, `playSFX`, the sound-file inputs of `saveCfg`) goes through foreign APIs and asynchronous fetches.
- `tick` and `startPauseTimer` depend on `performance.now` and animation frames. The timer fields are carried, copied and restored, and nothing more.
- Reading and writing `localStorage` and `JSON.parse` failures are I/O. `loadCfg` takes the parsed record, or None for nothing stored or a parse error.
- Stored values of the wrong JSON type are not modelled. That covers a non-array `guilds`, a non-record guild and a non-record message.
- `setSubjectImages` loads images, sounds and pictures asynchronously. Only its synchronous state changes are modelled (the subject, the suggested name).
- The background manifest fetch and the option list it builds are I/O.
- `SuggestedName` ignores inherited or non-string properties of `SUBJECT_NAMES`: the subject select only offers the three keys.
- `BackgroundLabel.Upper` covers ASCII letters only. Unicode case mapping is not modelled.
- The trimming of dialog inputs is taken as already done: the form values are the trimmed strings.
- The Firebase transport (`broadcastControl`, `setupRealtime`) is not modelled. That includes last-write-wins on the shared slot, and any behaviour of two instances running at once. Message ids and time stamps are parameters.
- js/auth.js and js/firebase-init.js are not part of this model.
- The keyboard shortcuts, the route table contents and the boot-time redirects of js/app.js are input wiring.
- `Router.Navigate` models only how `location.hash` reads back; percent-encoding by the browser is not modelled.
- `Router.HashRouter.HandleRoute` decides with the corrected lookup `Router.Decide`. For a key that is an inherited `Object.prototype` name and no route (`#toString`), it reports not found where the code as written throws; that behaviour is `Router.DecideAsWritten`, and the method's contract says exactly where the two differ.
- `Mirror.Hit` covers only the update of `actHit` and the throw of its guild lookup. The throw of the render is added by `Mirror.ActHitOn`, which the engine uses.
- `applyBackground` returns without setting `bgName` when the page has no `.bossView` element. The model takes `.bossView` to be present, so `FightConfig.BackgroundName` always decides the new `bgName`.
- index.html is not part of this model. The model takes `#bossPane` to exist only where the student pane creates it (js/app.js:55).
- `FightEngine.Fight.SaveCfg` is weaker: it promises validity only when no heart count is negative. The dialog's select offers 2 to 5, but the code would accept a negative count.
- `FightEngine.Fight.LoadCfg` is weaker: it promises validity only when no stored heart count is negative. `saveCfg` never stores one.

## Findings

| source | as written | input that shows it | evidently intended | confidence | as-written member | corrected member |
|---|---|---|---|---|---|---|
| js/router.js:24 | `routes[route]` also finds properties inherited from `Object.prototype`. These pass the `!r` test, and `r.render(...)` then throws a TypeError. | hash `#toString` with no `toString` route (Router.ToStringThrows) | an unknown route goes to the not-found handler | not executed | Router.DecideAsWritten | Router.Decide |
| js/app.js:95 | the teacher-dock hit handler reads `e.dataset.g` on the click event, which has no `dataset`. It throws before `actHit` and before the broadcast. | any click on a teacher-dock hit button while the boss has hearts | `e.currentTarget.dataset.g`, as the student pane does on js/app.js:77; the render in `actHit` must also be guarded, or it throws on the teacher dock before the broadcast | not executed | Mirror.Engine.PressTeacherHitAsWritten | Mirror.Engine.PressTeacherHit |
| js/app.js:96 | the teacher-dock reset handler calls `resetFight()`, whose render looks up `#bossPane`. The teacher dock has none, so `bp.innerHTML` throws a TypeError after the reset and `broadcastControl('reset')` is never reached. | any click on the teacher-dock reset button | the render returns when `#bossPane` is missing, so the reset is broadcast | not executed | Mirror.Engine.PressResetAsWritten | Mirror.Engine.PressReset |
