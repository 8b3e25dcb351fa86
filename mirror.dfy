/**
 * The mirrored boss engine of js/app.js: a smaller copy of the fight state that the
 * student pane and the teacher dock change, and the handler that turns a message read
 * from the realtime database into a call of `actHit` or `resetFight`. Messages are
 * applied every time they are delivered: nothing remembers which ids were seen.
 */
module Mirror {
  import opened Wrappers

  /** One guild of the mirror: `{ name, hpMax, hp, hits }`. */
  datatype Guild = Guild(name: string, hpMax: int, hp: int, hits: int)

  /** The module-level `state` of js/app.js. */
  datatype Board = Board(bossHPMax: int, bossHP: int, guilds: seq<Guild>, bossName: string)

  function Initial(): (b: Board)
    ensures Valid(b) && |b.guilds| == 3 && b.bossHP == b.bossHPMax == 8
  {
    Board(8, 8, [Guild("Yellow", 3, 3, 0), Guild("Blue", 3, 3, 0), Guild("Purple", 3, 3, 0)], "Ancient Drake")
  }

  /** Nothing in js/app.js lets the boss HP leave 0..max or a hit count go negative. */
  ghost predicate Valid(b: Board)
  {
    && 0 <= b.bossHP <= b.bossHPMax
    && forall k :: 0 <= k < |b.guilds| ==> 0 <= b.guilds[k].hp <= b.guilds[k].hpMax && b.guilds[k].hits >= 0
  }

  /** A JavaScript number as an array index: an integer, or any other number (a fraction, NaN, an infinity). */
  datatype Num = Int(n: int) | NonInteger

  /** What `actHit` leaves behind and whether it threw a TypeError on the way. */
  datatype Outcome = Outcome(board: Board, threw: bool)

  /**
   * `actHit(gIndex)`: nothing once the boss is at 0; otherwise the boss loses one heart
   * (never below 0) and the guild gains a hit. Without a guild at that index the read of
   * `.hits` throws after the heart is already gone.
   */
  function Hit(b: Board, g: Num): (o: Outcome)
    ensures b.bossHP <= 0 ==> o == Outcome(b, false)
    ensures b.bossHP > 0 ==> o.board.bossHP == b.bossHP - 1
    ensures b.bossHP > 0 ==> (o.threw <==> !(g.Int? && 0 <= g.n < |b.guilds|))
    ensures o.board.bossHPMax == b.bossHPMax && o.board.bossName == b.bossName && |o.board.guilds| == |b.guilds|
    ensures forall k :: 0 <= k < |b.guilds| ==>
      && o.board.guilds[k].hp == b.guilds[k].hp && o.board.guilds[k].hpMax == b.guilds[k].hpMax
      && o.board.guilds[k].name == b.guilds[k].name
      && o.board.guilds[k].hits == b.guilds[k].hits + (if b.bossHP > 0 && g == Int(k) then 1 else 0)
  {
    if b.bossHP <= 0 then Outcome(b, false)
    else
      var lowered := b.(bossHP := if b.bossHP - 1 < 0 then 0 else b.bossHP - 1);
      if g.Int? && 0 <= g.n < |b.guilds| then
        var gd := b.guilds[g.n];
        Outcome(lowered.(guilds := b.guilds[g.n := gd.(hits := gd.hits + 1)]), false)
      else Outcome(lowered, true)
  }

  /** `resetFight()`: the boss and every guild back to full, every hit count to 0. */
  function Reset(b: Board): (r: Board)
    ensures r.bossHP == r.bossHPMax == b.bossHPMax && r.bossName == b.bossName && |r.guilds| == |b.guilds|
    ensures forall k :: 0 <= k < |b.guilds| ==>
      r.guilds[k] == Guild(b.guilds[k].name, b.guilds[k].hpMax, b.guilds[k].hpMax, 0)
  {
    b.(bossHP := b.bossHPMax,
       guilds := seq(|b.guilds|, k requires 0 <= k < |b.guilds| => b.guilds[k].(hp := b.guilds[k].hpMax, hits := 0)))
  }

  lemma HitKeepsValid(b: Board, g: Num)
    requires Valid(b)
    ensures Valid(Hit(b, g).board)
  {
    var r := Hit(b, g).board;
    forall k | 0 <= k < |r.guilds| ensures 0 <= r.guilds[k].hp <= r.guilds[k].hpMax && r.guilds[k].hits >= 0 {
      assert 0 <= b.guilds[k].hp <= b.guilds[k].hpMax && b.guilds[k].hits >= 0;
    }
  }

  /** A reset keeps the board valid. */
  lemma ResetKeepsValid(b: Board)
    requires Valid(b)
    ensures Valid(Reset(b))
  {
    var r := Reset(b);
    forall k | 0 <= k < |r.guilds| ensures 0 <= r.guilds[k].hp <= r.guilds[k].hpMax {
      assert 0 <= b.guilds[k].hp <= b.guilds[k].hpMax;
    }
  }

  /** A reset wipes out any hit, so a hit followed by a reset is the reset alone. */
  lemma ResetForgetsHit(b: Board, g: Num)
    ensures Reset(Hit(b, g).board) == Reset(b)
  {
    var r1, r2 := Reset(Hit(b, g).board), Reset(b);
    assert |r1.guilds| == |r2.guilds|;
    forall k | 0 <= k < |r1.guilds| ensures r1.guilds[k] == r2.guilds[k] {
    }
  }

  lemma ResetIdempotent(b: Board)
    ensures Reset(Reset(b)) == Reset(b)
  {
    var r1, r2 := Reset(Reset(b)), Reset(b);
    forall k | 0 <= k < |r1.guilds| ensures r1.guilds[k] == r2.guilds[k] {
    }
  }

  // ----- Messages -----

  /** A field of the payload as `typeof` sees it: a number, or anything else (missing included). */
  datatype Field = Number(x: Num) | NotNumber

  datatype Payload = Payload(g: Field)

  /** The record `broadcastControl` writes: `{ id, action, payload, ts }`; an absent payload is None. */
  datatype Message = Message(id: string, action: string, payload: Option<Payload>, ts: int)

  /** The engine call a message leads to. */
  datatype Command = Ignore | HitCmd(g: Num) | ResetCmd

  /**
   * The `onValue` callback: no value does nothing; 'hit' with a numeric `payload.g` hits that
   * guild; 'reset' resets; anything else, including 'hit' without a numeric `g`, is ignored.
   */
  function Dispatch(msg: Option<Message>): (c: Command)
    ensures msg.None? ==> c == Ignore
    ensures c.HitCmd? <==> msg.Some? && msg.value.action == "hit" && msg.value.payload.Some? && msg.value.payload.value.g.Number?
    ensures c.HitCmd? ==> c.g == msg.value.payload.value.g.x
    ensures c.ResetCmd? <==> msg.Some? && msg.value.action == "reset"
  {
    match msg
    case None => Ignore
    case Some(m) =>
      if m.action == "hit" && m.payload.Some? && m.payload.value.g.Number? then HitCmd(m.payload.value.g.x)
      else if m.action == "reset" then ResetCmd
      else Ignore
  }

  /**
   * `actHit(gIndex)` as a whole: the update of `Hit`, then `renderBossPane()`. The render
   * looks up `#bossPane`, which only the student pane creates; on any other view (the
   * teacher dock, the login form, not-found) it throws, after the update is done.
   */
  function ActHitOn(b: Board, g: Num, pane: bool): (o: Outcome)
    ensures o.board == Hit(b, g).board
    ensures o.threw <==> b.bossHP > 0 && (!(g.Int? && 0 <= g.n < |b.guilds|) || !pane)
  {
    var h := Hit(b, g);
    Outcome(h.board, h.threw || (b.bossHP > 0 && !pane))
  }

  /** `resetFight()` as a whole: the reset, then the same render, which throws without `#bossPane`. */
  function ResetOn(b: Board, pane: bool): (o: Outcome)
    ensures o.board == Reset(b) && (o.threw <==> !pane)
  {
    Outcome(Reset(b), !pane)
  }

  /** What one delivery does on a view with or without `#bossPane`. */
  function Apply(b: Board, c: Command, pane: bool): (o: Outcome)
    ensures c.Ignore? ==> o == Outcome(b, false)
    ensures c.ResetCmd? ==> o.board == Reset(b) && (o.threw <==> !pane)
    ensures c.HitCmd? ==> o.board == Hit(b, c.g).board
    ensures c.HitCmd? ==> (o.threw <==> b.bossHP > 0 && (!(c.g.Int? && 0 <= c.g.n < |b.guilds|) || !pane))
  {
    match c
    case Ignore => Outcome(b, false)
    case HitCmd(g) => ActHitOn(b, g, pane)
    case ResetCmd => ResetOn(b, pane)
  }

  /** On the student pane a delivered hit throws only for a missing guild, as `Hit` says. */
  lemma ApplyOnPane(b: Board, g: Num)
    ensures Apply(b, HitCmd(g), true) == Hit(b, g)
  {
  }

  /**
   * Elsewhere a delivered hit or reset still changes the board but always throws in the
   * render (unless the boss is already at 0 for a hit, when `actHit` returns first).
   */
  lemma ApplyOffPane(b: Board, c: Command)
    requires c.ResetCmd? || (c.HitCmd? && b.bossHP > 0)
    ensures Apply(b, c, false).threw
  {
  }

  /** The id and the time stamp are never read: two messages that differ only there do the same. */
  lemma DispatchIgnoresIdAndTs(m: Message, id: string, ts: int)
    ensures Dispatch(Some(m.(id := id, ts := ts))) == Dispatch(Some(m))
  {
  }

  /** The same message delivered k times; each delivery is a separate callback, so a throw does not stop the next. */
  function Deliver(b: Board, m: Message, k: nat, pane: bool): Board
  {
    if k == 0 then b else Apply(Deliver(b, m, k - 1, pane), Dispatch(Some(m)), pane).board
  }

  /** No dedup: a hit message delivered k times to a boss with at least k hearts lands k times. */
  lemma {:induction false} RepeatedHitLands(b: Board, m: Message, k: nat, g: nat, pane: bool)
    requires Dispatch(Some(m)) == HitCmd(Int(g)) && g < |b.guilds| && b.bossHP >= k
    ensures var r := Deliver(b, m, k, pane);
      && r.bossHP == b.bossHP - k && |r.guilds| == |b.guilds|
      && r.guilds[g].hits == b.guilds[g].hits + k
      && forall j :: 0 <= j < |b.guilds| && j != g ==> r.guilds[j].hits == b.guilds[j].hits
  {
    if k > 0 {
      RepeatedHitLands(b, m, k - 1, g, pane);
    }
  }

  // ----- The buttons -----

  /** The message a hit button broadcasts for guild `idx`; id and ts come from the clock and a random source. */
  function HitMessage(idx: int, id: string, ts: int): Message
  {
    Message(id, "hit", Some(Payload(Number(Int(idx)))), ts)
  }

  /** The button writes `g` under the key the handler reads, so its message dispatches to a hit of the same guild. */
  lemma HitMessageDispatch(idx: int, id: string, ts: int)
    ensures Dispatch(Some(HitMessage(idx, id, ts))) == HitCmd(Int(idx))
  {
  }

  /** The reset button's message, with the empty payload `{}`. */
  function ResetMessage(id: string, ts: int): Message
  {
    Message(id, "reset", Some(Payload(NotNumber)), ts)
  }

  lemma ResetMessageDispatch(id: string, ts: int)
    ensures Dispatch(Some(ResetMessage(id, ts))) == ResetCmd
  {
  }

  /**
   * When the sender's own write is delivered back to it, nothing tells it apart from a
   * remote one: a press on the student pane, on a boss with at least two hearts, lands twice.
   */
  lemma EchoLandsTwice(b: Board, idx: nat, id: string, ts: int)
    requires idx < |b.guilds| && b.bossHP >= 2
    ensures var local := Hit(b, Int(idx)).board;
      var echoed := Apply(local, Dispatch(Some(HitMessage(idx, id, ts))), true).board;
      echoed.bossHP == b.bossHP - 2 && echoed.guilds[idx].hits == b.guilds[idx].hits + 2
  {
    HitMessageDispatch(idx, id, ts);
  }

  /** The mirror as the object js/app.js changes in place. */
  class Engine {
    var bossHPMax: int
    var bossHP: int
    var guilds: seq<Guild>
    var bossName: string

    /** The value of all fields together. */
    function State(): Board
      reads this
    {
      Board(bossHPMax, bossHP, guilds, bossName)
    }

    constructor ()
      ensures State() == Initial()
    {
      bossHPMax, bossHP := 8, 8;
      guilds := [Guild("Yellow", 3, 3, 0), Guild("Blue", 3, 3, 0), Guild("Purple", 3, 3, 0)];
      bossName := "Ancient Drake";
    }

    /** The update part of `actHit(gIndex)`, before its render; `threw` is the TypeError for a missing guild. */
    method UpdateHit(g: Num) returns (threw: bool)
      modifies this
      ensures Hit(old(State()), g) == Outcome(State(), threw)
    {
      if bossHP <= 0 {
        return false;
      }
      bossHP := if bossHP - 1 < 0 then 0 else bossHP - 1;
      if !(g.Int? && 0 <= g.n < |guilds|) {
        return true;
      }
      var gd := guilds[g.n];
      guilds := guilds[g.n := gd.(hits := gd.hits + 1)];
      threw := false;
    }

    /** `actHit(gIndex)` on a view with (`pane`) or without `#bossPane`. */
    method ActHit(g: Num, pane: bool) returns (threw: bool)
      modifies this
      ensures ActHitOn(old(State()), g, pane) == Outcome(State(), threw)
    {
      if bossHP <= 0 {
        return false;
      }
      threw := UpdateHit(g);
      if !threw && !pane {
        threw := true;
      }
    }

    /** The update part of `resetFight()`: the `forEach` over the guilds becomes a loop. */
    method ResetBoard()
      modifies this
      ensures State() == Reset(old(State()))
    {
      ghost var b := State();
      bossHP := bossHPMax;
      var i := 0;
      while i < |guilds|
        invariant 0 <= i <= |guilds| == |b.guilds|
        invariant forall k :: 0 <= k < i ==> guilds[k] == b.guilds[k].(hp := b.guilds[k].hpMax, hits := 0)
        invariant forall k :: i <= k < |guilds| ==> guilds[k] == b.guilds[k]
        invariant bossHPMax == b.bossHPMax && bossHP == b.bossHPMax && bossName == b.bossName
      {
        guilds := guilds[i := guilds[i].(hp := guilds[i].hpMax, hits := 0)];
        i := i + 1;
      }
    }

    /** `resetFight()` on a view with or without `#bossPane`. */
    method ResetFight(pane: bool) returns (threw: bool)
      modifies this
      ensures ResetOn(old(State()), pane) == Outcome(State(), threw)
    {
      ResetBoard();
      threw := !pane;
    }

    /** The `onValue` callback for one delivered value, on the view the page shows. */
    method OnValue(msg: Option<Message>, pane: bool) returns (threw: bool)
      modifies this
      ensures Apply(old(State()), Dispatch(msg), pane) == Outcome(State(), threw)
    {
      if msg.None? {
        return false;
      }
      var m := msg.value;
      if m.action == "hit" && m.payload.Some? && m.payload.value.g.Number? {
        threw := ActHit(m.payload.value.g.x, pane);
      } else if m.action == "reset" {
        threw := ResetFight(pane);
      } else {
        threw := false;
      }
    }

    /**
     * A hit button of the student pane: always a guild that exists, on the view that has
     * `#bossPane`; the hit lands locally without a throw, then the message is sent.
     */
    method PressHitButton(idx: nat, id: string, ts: int) returns (sent: Message)
      requires idx < |guilds|
      modifies this
      ensures State() == Hit(old(State()), Int(idx)).board
      ensures Dispatch(Some(sent)) == HitCmd(Int(idx))
      ensures sent == HitMessage(idx, id, ts)
    {
      var threw := ActHit(Int(idx), true);
      assert !threw;
      sent := HitMessage(idx, id, ts);
    }

    /**
     * A hit button of the teacher dock as written: the handler reads `dataset` from the click
     * event rather than from the button, and reading `g` of undefined throws before `actHit`
     * and before the broadcast. The board stays as it was, unlike after a working press.
     */
    method PressTeacherHitAsWritten(idx: nat) returns (threw: bool, sent: Option<Message>)
      requires idx < |guilds|
      ensures threw && sent.None?
      ensures bossHP > 0 ==> State() != Hit(State(), Int(idx)).board
    {
      threw, sent := true, None;
    }

    /**
     * The same button with the index read from the button and the render guarded by a test
     * for `#bossPane`: the hit lands locally, nothing throws, and the message is sent.
     * Without the guard the render would throw after the hit and before the broadcast.
     */
    method PressTeacherHit(idx: nat, id: string, ts: int) returns (sent: Message)
      requires idx < |guilds|
      modifies this
      ensures State() == Hit(old(State()), Int(idx)).board
      ensures Dispatch(Some(sent)) == HitCmd(Int(idx))
      ensures sent == HitMessage(idx, id, ts)
    {
      var threw := UpdateHit(Int(idx));
      assert !threw;
      sent := HitMessage(idx, id, ts);
    }

    /**
     * The reset button of the teacher dock as written: `resetFight()` resets the board and
     * then throws in its render, since the teacher dock has no `#bossPane`; the broadcast
     * after it is never reached.
     */
    method PressResetAsWritten() returns (threw: bool, sent: Option<Message>)
      modifies this
      ensures State() == Reset(old(State()))
      ensures threw && sent.None?
    {
      threw := ResetFight(false);
      sent := None;
    }

    /** The reset button with the render guarded: the board is reset and the reset message is sent. */
    method PressReset(id: string, ts: int) returns (sent: Message)
      modifies this
      ensures State() == Reset(old(State()))
      ensures Dispatch(Some(sent)) == ResetCmd
    {
      ResetBoard();
      sent := ResetMessage(id, ts);
    }
  }
}
