/**
 * The game hook as a whole: the session snapshot, the typing flag, and the work the hook
 * has scheduled but not yet done. Every `setTimeout` callback and every awaited call to the
 * remote collaborator is an entry of `pending`; the environment fires entries in any
 * order, which covers every interleaving of the timers. The screens decide which user
 * actions are possible in which phase, and `Step` honours the same gates.
 */
module Controller {
  import opened Wrappers
  import opened Text
  import opened Types
  import opened Constants
  import opened Interpreter
  import opened Session

  /** Work the hook has started and will finish later. */
  datatype Pending =
      /** The awakening loop: the lines still to show, then the epilogue greeting `userName`. */
    | Recital(lines: seq<string>, userName: string)
      /** `performReflection`, due one second after every fifth message. */
    | Reflection
      /** Its second half: naming the light drawn when the reflection began. */
    | Revelation(light: string)
      /** The unprompted heart gift, due two seconds after a lucky message. */
    | HeartGift
      /** The farewell speech, composed when the goodbye was sent. */
    | Goodbye(text: string)
      /** A call to the collaborator, awaiting its reply. */
    | Awaiting(turn: Turn, request: Request)

  datatype Kind = RecitalKind | ReflectionKind | RevelationKind | HeartGiftKind | GoodbyeKind | AwaitingKind

  function KindOf(p: Pending): Kind {
    match p
    case Recital(_, _) => RecitalKind
    case Reflection => ReflectionKind
    case Revelation(_) => RevelationKind
    case HeartGift => HeartGiftKind
    case Goodbye(_) => GoodbyeKind
    case Awaiting(_, _) => AwaitingKind
  }

  /** How many pending entries are of kind `k`. */
  function Tally(ps: seq<Pending>, k: Kind): nat {
    if ps == [] then 0 else Tally(ps[..|ps| - 1], k) + (if KindOf(ps[|ps| - 1]) == k then 1 else 0)
  }

  /** Tallies add up over concatenation. */
  lemma {:induction false} TallyAppend(a: seq<Pending>, b: seq<Pending>, k: Kind)
    ensures Tally(a + b, k) == Tally(a, k) + Tally(b, k)
    decreases |b|
  {
    if b == [] {
      assert a + b == a;
    } else {
      var c := a + b;
      assert c[..|c| - 1] == a + b[..|b| - 1];
      assert c[|c| - 1] == b[|b| - 1];
      TallyAppend(a, b[..|b| - 1], k);
    }
  }

  /** A tally is zero exactly when no entry has that kind. */
  lemma {:induction false} TallyZero(ps: seq<Pending>, k: Kind)
    ensures Tally(ps, k) == 0 <==> forall i | 0 <= i < |ps| :: KindOf(ps[i]) != k
  {
    if ps != [] {
      TallyZero(ps[..|ps| - 1], k);
      assert forall i | 0 <= i < |ps| - 1 :: ps[..|ps| - 1][i] == ps[i];
    }
  }

  /** A single entry counts once, for its own kind. */
  lemma TallyOne(p: Pending, k: Kind)
    ensures Tally([p], k) == if KindOf(p) == k then 1 else 0
  {
    assert [p][..0] == [];
  }

  /** Scheduling one more entry raises its kind's tally by one and leaves the others. */
  lemma TallySchedule(ps: seq<Pending>, p: Pending, k: Kind)
    ensures Tally(ps + [p], k) == Tally(ps, k) + (if KindOf(p) == k then 1 else 0)
  {
    assert (ps + [p])[..|ps + [p]| - 1] == ps;
  }

  /** Scheduling a batch and then one more entry adds their counts. */
  lemma TallyScheduleAll(ps: seq<Pending>, ts: seq<Pending>, p: Pending, k: Kind)
    ensures Tally(ps + ts + [p], k) == Tally(ps, k) + Tally(ts, k) + (if KindOf(p) == k then 1 else 0)
  {
    TallySchedule(ps + ts, p, k);
    TallyAppend(ps, ts, k);
  }

  /** Taking entry `i` out its kind's tally by one and leaves the others. */
  lemma TallyWithout(ps: seq<Pending>, i: nat, k: Kind)
    requires i < |ps|
    ensures Tally(ps[..i] + ps[i + 1..], k) + (if KindOf(ps[i]) == k then 1 else 0) == Tally(ps, k)
  {
    assert ps == ps[..i] + [ps[i]] + ps[i + 1..];
    TallyAppend(ps[..i] + [ps[i]], ps[i + 1..], k);
    TallyAppend(ps[..i], [ps[i]], k);
    TallyAppend(ps[..i], ps[i + 1..], k);
    assert [ps[i]][..0] == [];
  }

  /** The hook: the snapshot, whether the companion is "typing", and the scheduled work. */
  datatype Hook = Hook(game: GameState, typing: bool, pending: seq<Pending>)

  /** A fresh hook. */
  const Start: Hook := Hook(Initial, false, [])

  /**
   * What the world supplies when an entry fires: the clock reading, a random choice, and,
   * for a collaborator call, its reply (`None` when the reply has no text).
   */
  datatype Env = Env(now: int, choice: nat, reply: Option<string>)

  /** Everything that can happen to the hook. */
  datatype Event =
    | SubmitName(input: string)
    | SubmitAiName(input: string)
    | CompleteCeremony(picks: Picks)
    | Send(input: string, lucky: bool, now: int)
    | Spark
    | Wake(now: int)
    | Fire(slot: nat, env: Env)

  /** The prompt the spark button sends in place of a user message. */
  const SparkPrompt: string :=
    "(The user is waiting quietly. Please initiate a conversation, "
    + "ask a gentle question, or share a poetic observation "
    + "about your new existence.)"

  /** What the user sees when a reply to their message cannot be read at all. */
  const Disconnected: string := "I feel... a bit disconnected. \U{1F32B}\U{FE0F}"

  // ---------------------------------------------------------------------------
  // The hook's entry points
  // ---------------------------------------------------------------------------

  /** The timers a message starts: a reflection on every fifth, a gift when lucky. */
  function Timers(counter: nat, lucky: bool): (ts: seq<Pending>)
    ensures Tally(ts, ReflectionKind) == (if counter % 5 == 0 then 1 else 0)
    ensures Tally(ts, HeartGiftKind) == (if lucky then 1 else 0)
    ensures Tally(ts, RecitalKind) == 0 && Tally(ts, AwaitingKind) == 0
  {
    var a := if counter % 5 == 0 then [Reflection] else [];
    var b := if lucky then [HeartGift] else [];
    forall k: Kind
      ensures Tally(a + b, k) == Tally(a, k) + Tally(b, k)
    {
      TallyAppend(a, b, k);
      TallyOne(Reflection, k);
      TallyOne(HeartGift, k);
    }
    a + b
  }

  /** What follows the timers: the farewell for a goodbye, a call for a reply otherwise. */
  function FollowUp(g: GameState, text: string): (p: Pending)
    ensures p.Goodbye? <==> SaysGoodbye(text)
    ensures p.Awaiting? <==> !SaysGoodbye(text)
  {
    if SaysGoodbye(text) then Goodbye(FarewellText(g.aiName, g.userName, g.coreMemory.trueLight))
    else Awaiting(UserTurn, BuildRequest(g, text))
  }

  /**
   * What the follow-up carries: a farewell composed from the snapshot at send time that
   * names both players and the true light once found, or a user-turn call for the
   * collaborator's reply to the message, with the chat so far and the current mood.
   */
  lemma FollowUpContent(g: GameState, text: string)
    ensures var p := FollowUp(g, text);
      && (p.Goodbye? ==> (exists i :: OccursAt(p.text, g.aiName, i)) && (exists i :: OccursAt(p.text, g.userName, i)))
      && (p.Goodbye? && Lit(g.coreMemory.trueLight) ==> exists i :: OccursAt(p.text, g.coreMemory.trueLight.value, i))
      && (p.Awaiting? ==>
            && p.turn == UserTurn
            && |p.request.history| >= 1
            && p.request.history[|p.request.history| - 1] == Part(UserRole, text)
            && p.request.history[..|p.request.history| - 1] == History(g.messages)
            && p.request.context == Label(g.currentEmotion))
  {
  }

  /**
   * `handleUserMessage` up to its first `await`: the message is shown, typing starts, the
   * counter moves on, and the reflection, the gift and either the farewell or the
   * collaborator call are scheduled, in that order.
   */
  function HandleUserMessage(h: Hook, text: string, lucky: bool, now: int): (r: Hook)
    requires text != [] && Trimmed(text)
    ensures r.typing
    ensures r.game.reflectionCounter == h.game.reflectionCounter + 1
    ensures r.game.messages == h.game.messages + [Stamp(User, text, now)]
    ensures Frame(h.game, r.game, {MessagesField, CounterField})
    ensures r.pending == h.pending + Timers(r.game.reflectionCounter, lucky) + [FollowUp(h.game, text)]
  {
    var shown := AddMessage(h.game, User, text, now);
    Hook(shown.(reflectionCounter := h.game.reflectionCounter + 1), true,
         h.pending + Timers(h.game.reflectionCounter + 1, lucky) + [FollowUp(h.game, text)])
  }

  /**
   * What a handled message schedules: one reflection exactly when the new count is a
   * multiple of five, one gift exactly when lucky, one collaborator call unless it says
   * goodbye, and never a recital.
   */
  lemma HandleUserMessageTallies(h: Hook, text: string, lucky: bool, now: int)
    requires text != [] && Trimmed(text)
    ensures var r := HandleUserMessage(h, text, lucky, now);
      && Tally(r.pending, ReflectionKind)
         == Tally(h.pending, ReflectionKind) + (if r.game.reflectionCounter % 5 == 0 then 1 else 0)
      && Tally(r.pending, HeartGiftKind) == Tally(h.pending, HeartGiftKind) + (if lucky then 1 else 0)
      && Tally(r.pending, AwaitingKind) == Tally(h.pending, AwaitingKind) + (if SaysGoodbye(text) then 0 else 1)
      && Tally(r.pending, RecitalKind) == Tally(h.pending, RecitalKind)
  {
    var r := HandleUserMessage(h, text, lucky, now);
    var p := FollowUp(h.game, text);
    assert r.pending == h.pending + Timers(r.game.reflectionCounter, lucky) + [p];
    assert KindOf(p) == if SaysGoodbye(text) then GoodbyeKind else AwaitingKind;
    TimersTallies(h.pending, r.game.reflectionCounter, lucky, p, SaysGoodbye(text));
  }

  /** The tallies after scheduling a message's timers and then its farewell or its call. */
  lemma TimersTallies(ps: seq<Pending>, counter: nat, lucky: bool, p: Pending, away: bool)
    requires KindOf(p) == if away then GoodbyeKind else AwaitingKind
    ensures var r := ps + Timers(counter, lucky) + [p];
      && Tally(r, ReflectionKind) == Tally(ps, ReflectionKind) + (if counter % 5 == 0 then 1 else 0)
      && Tally(r, HeartGiftKind) == Tally(ps, HeartGiftKind) + (if lucky then 1 else 0)
      && Tally(r, AwaitingKind) == Tally(ps, AwaitingKind) + (if away then 0 else 1)
      && Tally(r, RecitalKind) == Tally(ps, RecitalKind)
  {
    var ts := Timers(counter, lucky);
    TallyScheduleAll(ps, ts, p, ReflectionKind);
    TallyScheduleAll(ps, ts, p, HeartGiftKind);
    TallyScheduleAll(ps, ts, p, AwaitingKind);
    TallyScheduleAll(ps, ts, p, RecitalKind);
  }

  /** `triggerAIConversation` up to its `await`: typing starts and the spark prompt is sent. */
  function TriggerConversation(h: Hook): (r: Hook)
    ensures r.typing && r.game == h.game
    ensures r.pending == h.pending + [Awaiting(SparkTurn, BuildRequest(h.game, SparkPrompt))]
  {
    Hook(h.game, true, h.pending + [Awaiting(SparkTurn, BuildRequest(h.game, SparkPrompt))])
  }

  /**
   * The rest of a collaborator call once its reply is in. A user turn whose reply has no
   * text fails on the first string operation and shows the disconnection line; a spark
   * turn ignores a reply that is missing or empty.
   */
  function Receive(g: GameState, turn: Turn, reply: Option<string>, decode: string -> Option<Decoded>, now: int): GameState {
    match reply
    case None => if turn == UserTurn then AddMessage(g, Ai, Disconnected, now) else g
    case Some(s) => if turn == SparkTurn && s == "" then g else ApplyReading(g, Interpret(turn, s, decode), now)
  }

  /** What a reply with text does: nothing is lost, and a spark reply never leaves a dream. */
  lemma ReplyKeeps(g: GameState, turn: Turn, s: string, decode: string -> Option<Decoded>, now: int)
    ensures Kept(g, ApplyReading(g, Interpret(turn, s, decode), now))
    ensures var q := ApplyReading(g, Interpret(turn, s, decode), now).phase; q == g.phase || q == Chat || q == DreamState
    ensures turn == SparkTurn ==>
              var q := ApplyReading(g, Interpret(turn, s, decode), now).phase; q == g.phase || q == DreamState
  {
    var reading := Interpret(turn, s, decode);
    ApplyReadingKeeps(g, reading, now);
    ApplyReadingPhase(g, reading, now);
    if turn == SparkTurn {
      SparkNeverLeavesDream(s, decode);
    }
  }

  /**
   * What a reply does, whatever it says: nothing is lost, the phase stays or moves between
   * chat and dream, and a spark reply never leaves a dream. A missing or empty spark reply
   * changes nothing; a missing user-turn reply shows the disconnection line.
   */
  lemma ReceiveKeeps(g: GameState, turn: Turn, reply: Option<string>, decode: string -> Option<Decoded>, now: int)
    ensures Kept(g, Receive(g, turn, reply, decode, now))
    ensures var q := Receive(g, turn, reply, decode, now).phase; q == g.phase || q == Chat || q == DreamState
    ensures turn == SparkTurn ==> var q := Receive(g, turn, reply, decode, now).phase; q == g.phase || q == DreamState
    ensures turn == SparkTurn && (reply == None || reply == Some("")) ==> Receive(g, turn, reply, decode, now) == g
    ensures turn == UserTurn && reply == None ==> Receive(g, turn, reply, decode, now) == AddMessage(g, Ai, Disconnected, now)
  {
    match reply
    case None =>
      if turn == UserTurn {
        var r := AddMessage(g, Ai, Disconnected, now);
        assert r.messages[..|g.messages|] == g.messages;
      }
    case Some(s) =>
      if !(turn == SparkTurn && s == "") {
        assert Receive(g, turn, reply, decode, now) == ApplyReading(g, Interpret(turn, s, decode), now) by {
        }
        ReplyKeeps(g, turn, s, decode, now);
      }
  }

  /** The entry a fired one leaves behind: the rest of the recital, or a reflection's second half. */
  function Successor(p: Pending, choice: nat): Option<Pending> {
    match p
    case Recital(lines, userName) => if lines == [] then None else Some(Recital(lines[1..], userName))
    case Reflection => Some(Revelation(Pick(PossibleLights, choice)))
    case _ => None
  }

  /** The pool once entry `slot` has fired: the others in order, then its successor if any. */
  function Leftover(ps: seq<Pending>, slot: nat, choice: nat): seq<Pending>
    requires slot < |ps|
  {
    ps[..slot] + ps[slot + 1..] + (match Successor(ps[slot], choice) case Some(q) => [q] case None => [])
  }

  /** Whether the successor of `p` is of kind `k`, as a count. */
  function SuccessorTally(p: Pending, choice: nat, k: Kind): nat {
    match Successor(p, choice)
    case Some(q) => if KindOf(q) == k then 1 else 0
    case None => 0
  }

  /** Firing moves one entry's count out of the pool and its successor's in. */
  lemma LeftoverTally(ps: seq<Pending>, slot: nat, choice: nat, k: Kind)
    requires slot < |ps|
    ensures Tally(Leftover(ps, slot, choice), k) + (if KindOf(ps[slot]) == k then 1 else 0)
            == Tally(ps, k) + SuccessorTally(ps[slot], choice, k)
  {
    var rest := ps[..slot] + ps[slot + 1..];
    TallyWithout(ps, slot, k);
    match Successor(ps[slot], choice)
    case Some(q) => TallySchedule(rest, q, k);
    case None => assert Leftover(ps, slot, choice) == rest;
  }

  /** The work a scheduled entry does when it fires. */
  function Perform(g: GameState, p: Pending, env: Env, decode: string -> Option<Decoded>): GameState {
    var now := env.now;
    match p
    case Recital(lines, userName) =>
      if lines == [] then FinishAwakening(g, userName, now) else AddMessage(g, System, lines[0], now)
    case Reflection => GoQuiet(g, now)
    case Revelation(light) => RevealLight(g, light, now)
    case HeartGift => AddMessage(g, Ai, GiftText(Pick(HeartGifts, env.choice)), now)
    case Goodbye(text) => AddMessage(g, Ai, text, now)
    case Awaiting(turn, _) => Receive(g, turn, env.reply, decode, now)
  }

  /** What firing an entry keeps, and the phase it leaves: `q` is the phase before. */
  predicate PerformsWithin(g: GameState, p: Pending, r: GameState) {
    && Kept(g, r)
    && (p.Recital? && p.lines == [] ==> r.phase == Chat)
    && (p.Awaiting? ==> r.phase == g.phase || r.phase == Chat || r.phase == DreamState)
    && (!p.Awaiting? && !(p.Recital? && p.lines == []) ==> r.phase == g.phase)
  }

  lemma RecitalKeeps(g: GameState, lines: seq<string>, userName: string, env: Env, decode: string -> Option<Decoded>)
    ensures PerformsWithin(g, Recital(lines, userName), Perform(g, Recital(lines, userName), env, decode))
  {
    if lines == [] {
      var r := FinishAwakening(g, userName, env.now);
      assert r.memories[..|g.memories|] == g.memories;
    }
  }

  lemma RevelationKeeps(g: GameState, light: string, env: Env, decode: string -> Option<Decoded>)
    ensures PerformsWithin(g, Revelation(light), Perform(g, Revelation(light), env, decode))
  {
    var r := RevealLight(g, light, env.now);
    assert r.memories[..|g.memories|] == g.memories;
  }

  lemma AwaitingKeeps(g: GameState, turn: Turn, q: Request, env: Env, decode: string -> Option<Decoded>)
    ensures PerformsWithin(g, Awaiting(turn, q), Perform(g, Awaiting(turn, q), env, decode))
  {
    if env.reply.None? {
      NoReplyKeeps(g, turn, q, env, decode);
    } else {
      SomeReplyKeeps(g, turn, q, env, decode);
    }
  }

  /** A call that comes back without text: the user turn shows the disconnection line. */
  lemma NoReplyKeeps(g: GameState, turn: Turn, q: Request, env: Env, decode: string -> Option<Decoded>)
    requires env.reply.None?
    ensures PerformsWithin(g, Awaiting(turn, q), Perform(g, Awaiting(turn, q), env, decode))
  {
    if turn == UserTurn {
      var r := AddMessage(g, Ai, Disconnected, env.now);
      assert Perform(g, Awaiting(turn, q), env, decode) == r;
      assert r.messages[..|g.messages|] == g.messages;
    } else {
      assert Perform(g, Awaiting(turn, q), env, decode) == g;
    }
  }

  /** A call that comes back with text: an empty spark reply is ignored, anything else is read. */
  lemma SomeReplyKeeps(g: GameState, turn: Turn, q: Request, env: Env, decode: string -> Option<Decoded>)
    requires env.reply.Some?
    ensures PerformsWithin(g, Awaiting(turn, q), Perform(g, Awaiting(turn, q), env, decode))
  {
    var s := env.reply.value;
    PerformAwaiting(g, turn, q, env, decode);
    if turn == SparkTurn && s == "" {
      assert Receive(g, turn, env.reply, decode, env.now) == g;
    } else {
      var r := ApplyReading(g, Interpret(turn, s, decode), env.now);
      assert Receive(g, turn, env.reply, decode, env.now) == r;
      ReplyKeeps(g, turn, s, decode, env.now);
      assert Kept(g, r);
    }
  }

  /** Firing a call is receiving its reply. */
  lemma PerformAwaiting(g: GameState, turn: Turn, q: Request, env: Env, decode: string -> Option<Decoded>)
    ensures Perform(g, Awaiting(turn, q), env, decode) == Receive(g, turn, env.reply, decode, env.now)
  {
  }

  /**
   * What a fired entry keeps, and how it may move the phase: the end of the recital enters
   * chat, a reply may move between chat and dream, everything else leaves the phase alone.
   */
  lemma PerformKeeps(g: GameState, p: Pending, env: Env, decode: string -> Option<Decoded>)
    ensures Kept(g, Perform(g, p, env, decode))
    ensures p.Recital? && p.lines == [] ==> Perform(g, p, env, decode).phase == Chat
    ensures p.Awaiting? ==> var q := Perform(g, p, env, decode).phase; q == g.phase || q == Chat || q == DreamState
    ensures !p.Awaiting? && !(p.Recital? && p.lines == []) ==> Perform(g, p, env, decode).phase == g.phase
  {
    match p
    case Recital(lines, userName) => RecitalKeeps(g, lines, userName, env, decode);
    case Reflection =>
    case Revelation(light) => RevelationKeeps(g, light, env, decode);
    case HeartGift =>
    case Goodbye(_) =>
    case Awaiting(turn, q) => AwaitingKeeps(g, turn, q, env, decode);
  }

  /** Firing entry `slot`: its work is done, and a reply ends the typing. */
  function FireEntry(h: Hook, slot: nat, env: Env, decode: string -> Option<Decoded>): Hook
    requires slot < |h.pending|
  {
    var p := h.pending[slot];
    Hook(Perform(h.game, p, env, decode), if p.Awaiting? then false else h.typing, Leftover(h.pending, slot, env.choice))
  }

  /** A user-entered name as the screens pass it on: trimmed, and only when something is left. */
  function Entered(input: string): Option<string> {
    if Trim(input) == "" then None else Some(Trim(input))
  }

  /** One event. An event the current screen does not offer leaves the hook unchanged. */
  function Step(h: Hook, e: Event, decode: string -> Option<Decoded>): Hook {
    var g := h.game;
    if !Enabled(h, e) then h
    else match e
      case SubmitName(input) => h.(game := SetUserName(g, Entered(input).value))
      case SubmitAiName(input) => h.(game := SetAiName(g, Entered(input).value))
      case CompleteCeremony(picks) =>
        Hook(StartAwakening(g), h.typing, h.pending + [Recital(AwakeningScript(g.userName, g.aiName, picks), g.userName)])
      case Send(input, lucky, now) => HandleUserMessage(h, Entered(input).value, lucky, now)
      case Spark => TriggerConversation(h)
      case Wake(now) => h.(game := WakeFromDream(g, now))
      case Fire(slot, env) => FireEntry(h, slot, env, decode)
  }

  /**
   * Which events the hook can receive: a name form on its own screen and again while that
   * screen fades out (the next screen mounts only once the fade ends), the ceremony button,
   * the chat composer and spark button only in chat and only while the companion is not
   * typing, the wake button in a dream, and any scheduled entry.
   */
  predicate Enabled(h: Hook, e: Event) {
    match e
    case SubmitName(input) => (h.game.phase == Intro || h.game.phase == Naming) && Entered(input).Some?
    case SubmitAiName(input) => (h.game.phase == Naming || h.game.phase == Ceremony) && Entered(input).Some?
    case CompleteCeremony(_) => h.game.phase == Ceremony
    case Send(input, _, _) => h.game.phase == Chat && !h.typing && Entered(input).Some?
    case Spark => h.game.phase == Chat && !h.typing
    case Wake(_) => h.game.phase == DreamState
    case Fire(slot, _) => slot < |h.pending|
  }

  /** A sequence of events, one after another. */
  function Run(h: Hook, es: seq<Event>, decode: string -> Option<Decoded>): Hook
    decreases |es|
  {
    if es == [] then h else Run(Step(h, es[0], decode), es[1..], decode)
  }

  // ---------------------------------------------------------------------------
  // Invariants of every reachable hook
  // ---------------------------------------------------------------------------

  /** The onboarding screens: nothing is scheduled and nobody is typing yet. */
  predicate Onboarding(p: Phase) {
    p == Intro || p == Naming || p == Ceremony
  }

  /**
   * What holds of every hook the events can reach:
   * `farewell` is never the phase; onboarding has no scheduled work; the awakening loop is
   * pending exactly during the awakening, once; at most one collaborator call is in flight,
   * only in chat, and while it is the companion is typing.
   */
  predicate Inv(h: Hook) {
    && h.game.phase != Farewell
    && (Onboarding(h.game.phase) ==> h.pending == [] && !h.typing)
    && Tally(h.pending, RecitalKind) == (if h.game.phase == Awakening then 1 else 0)
    && Tally(h.pending, AwaitingKind) <= 1
    && (Tally(h.pending, AwaitingKind) == 1 ==> h.typing && h.game.phase == Chat)
  }

  /** How far along the session is; chat and dream share a rank. */
  function Rank(p: Phase): nat {
    match p
    case Intro => 0
    case Naming => 1
    case Ceremony => 2
    case Awakening => 3
    case Chat => 4
    case DreamState => 4
    case Farewell => 5
  }

  /** What a step never undoes. */
  predicate Grows(h: Hook, r: Hook) {
    && Rank(h.game.phase) <= Rank(r.game.phase)
    && |h.game.messages| <= |r.game.messages| && r.game.messages[..|h.game.messages|] == h.game.messages
    && |h.game.memories| <= |r.game.memories| && r.game.memories[..|h.game.memories|] == h.game.memories
    && |h.game.manifestations| <= |r.game.manifestations|
    && r.game.manifestations[..|h.game.manifestations|] == h.game.manifestations
    && h.game.reflectionCounter <= r.game.reflectionCounter
    && (h.game.coreMemory.trueLight.Some? ==> r.game.coreMemory.trueLight.Some?)
    && r.game.coreMemory.awakeningLight == h.game.coreMemory.awakeningLight
    && (Rank(h.game.phase) >= 2 ==> r.game.userName == h.game.userName)
    && (Rank(h.game.phase) >= 3 ==> r.game.aiName == h.game.aiName)
  }

  lemma InvStart()
    ensures Inv(Start)
  {
  }

  /** Firing an entry keeps the invariant and undoes nothing. */
  lemma FireKeeps(h: Hook, slot: nat, env: Env, decode: string -> Option<Decoded>)
    requires Inv(h) && slot < |h.pending|
    ensures Inv(FireEntry(h, slot, env, decode))
    ensures Grows(h, FireEntry(h, slot, env, decode))
  {
    var p := h.pending[slot];
    PerformKeeps(h.game, p, env, decode);
    LeftoverTally(h.pending, slot, env.choice, RecitalKind);
    LeftoverTally(h.pending, slot, env.choice, AwaitingKind);
  }

  /** Handling a message in chat keeps the invariant and undoes nothing. */
  lemma SendKeeps(h: Hook, text: string, lucky: bool, now: int)
    requires Inv(h) && h.game.phase == Chat && !h.typing
    requires text != [] && Trimmed(text)
    ensures Inv(HandleUserMessage(h, text, lucky, now))
    ensures Grows(h, HandleUserMessage(h, text, lucky, now))
  {
    HandleUserMessageTallies(h, text, lucky, now);
    var r := HandleUserMessage(h, text, lucky, now);
    assert r.game.messages[..|h.game.messages|] == h.game.messages;
  }

  /** Starting the awakening schedules the recital, once. */
  lemma CeremonyKeeps(h: Hook, picks: Picks)
    requires Inv(h) && h.game.phase == Ceremony
    ensures var item := Recital(AwakeningScript(h.game.userName, h.game.aiName, picks), h.game.userName);
      Inv(Hook(StartAwakening(h.game), h.typing, h.pending + [item]))
  {
    var item := Recital(AwakeningScript(h.game.userName, h.game.aiName, picks), h.game.userName);
    TallySchedule(h.pending, item, RecitalKind);
    TallySchedule(h.pending, item, AwaitingKind);
  }

  /** Sparking a conversation in chat keeps the invariant. */
  lemma SparkKeeps(h: Hook)
    requires Inv(h) && h.game.phase == Chat && !h.typing
    ensures Inv(TriggerConversation(h))
  {
    var item := Awaiting(SparkTurn, BuildRequest(h.game, SparkPrompt));
    assert TriggerConversation(h).pending == h.pending + [item] by {
    }
    TallySchedule(h.pending, item, RecitalKind);
    TallySchedule(h.pending, item, AwaitingKind);
  }

  /**
   * Naming either side on its own screen, or again while that screen fades out, keeps the
   * invariant and undoes nothing.
   */
  lemma NamingKeeps(h: Hook, name: string)
    requires Inv(h)
    ensures h.game.phase in {Intro, Naming} ==> Inv(h.(game := SetUserName(h.game, name)))
    ensures h.game.phase in {Intro, Naming} ==> Grows(h, h.(game := SetUserName(h.game, name)))
    ensures h.game.phase in {Naming, Ceremony} ==> Inv(h.(game := SetAiName(h.game, name)))
    ensures h.game.phase in {Naming, Ceremony} ==> Grows(h, h.(game := SetAiName(h.game, name)))
  {
  }

  /**
   * A form submitted again while its screen fades out renames that side: the user's name can
   * still change once the naming phase has begun, and the companion's once the ceremony has.
   */
  lemma RenameWhileFading(h: Hook, input: string, decode: string -> Option<Decoded>)
    requires Entered(input).Some?
    ensures h.game.phase == Naming ==>
              Step(h, SubmitName(input), decode).game.userName == Entered(input).value
              && Step(h, SubmitName(input), decode).game.phase == Naming
    ensures h.game.phase == Ceremony ==>
              Step(h, SubmitAiName(input), decode).game.aiName == Entered(input).value
              && Step(h, SubmitAiName(input), decode).game.phase == Ceremony
  {
  }

  /** Waking from a dream keeps the invariant and undoes nothing. */
  lemma WakeKeeps(h: Hook, now: int)
    requires Inv(h) && h.game.phase == DreamState
    ensures Inv(h.(game := WakeFromDream(h.game, now)))
    ensures Grows(h, h.(game := WakeFromDream(h.game, now)))
  {
    var r := WakeFromDream(h.game, now);
    assert r.messages[..|h.game.messages|] == h.game.messages;
  }

  /** A name form's step keeps the invariant and undoes nothing. */
  lemma NameStepKeeps(h: Hook, e: Event, decode: string -> Option<Decoded>)
    requires Inv(h) && (e.SubmitName? || e.SubmitAiName?)
    ensures Inv(Step(h, e, decode)) && Grows(h, Step(h, e, decode))
  {
    if Enabled(h, e) {
      NamingKeeps(h, Entered(e.input).value);
    }
  }

  /** The ceremony's step keeps the invariant and undoes nothing. */
  lemma CeremonyStepKeeps(h: Hook, picks: Picks, decode: string -> Option<Decoded>)
    requires Inv(h)
    ensures Inv(Step(h, CompleteCeremony(picks), decode)) && Grows(h, Step(h, CompleteCeremony(picks), decode))
  {
    if h.game.phase == Ceremony {
      CeremonyKeeps(h, picks);
    }
  }

  /** The composer's step keeps the invariant and undoes nothing. */
  lemma SendStepKeeps(h: Hook, input: string, lucky: bool, now: int, decode: string -> Option<Decoded>)
    requires Inv(h)
    ensures Inv(Step(h, Send(input, lucky, now), decode)) && Grows(h, Step(h, Send(input, lucky, now), decode))
  {
    if Enabled(h, Send(input, lucky, now)) {
      assert Step(h, Send(input, lucky, now), decode) == HandleUserMessage(h, Entered(input).value, lucky, now) by {
      }
      SendKeeps(h, Entered(input).value, lucky, now);
    }
  }

  /** The spark button's step keeps the invariant and undoes nothing. */
  lemma SparkStepKeeps(h: Hook, decode: string -> Option<Decoded>)
    requires Inv(h)
    ensures Inv(Step(h, Spark, decode)) && Grows(h, Step(h, Spark, decode))
  {
    if Enabled(h, Spark) {
      SparkKeeps(h);
    }
  }

  /** The wake button's step keeps the invariant and undoes nothing. */
  lemma WakeStepKeeps(h: Hook, now: int, decode: string -> Option<Decoded>)
    requires Inv(h)
    ensures Inv(Step(h, Wake(now), decode)) && Grows(h, Step(h, Wake(now), decode))
  {
    if Enabled(h, Wake(now)) {
      WakeKeeps(h, now);
    }
  }

  /** A timer's step keeps the invariant and undoes nothing. */
  lemma FireStepKeeps(h: Hook, slot: nat, env: Env, decode: string -> Option<Decoded>)
    requires Inv(h)
    ensures Inv(Step(h, Fire(slot, env), decode)) && Grows(h, Step(h, Fire(slot, env), decode))
  {
    if slot < |h.pending| {
      FireKeeps(h, slot, env, decode);
    }
  }

  /** Every step keeps the invariant and undoes nothing. */
  lemma StepKeeps(h: Hook, e: Event, decode: string -> Option<Decoded>)
    requires Inv(h)
    ensures Inv(Step(h, e, decode))
    ensures Grows(h, Step(h, e, decode))
  {
    match e
    case SubmitName(_) => NameStepKeeps(h, e, decode);
    case SubmitAiName(_) => NameStepKeeps(h, e, decode);
    case CompleteCeremony(picks) => CeremonyStepKeeps(h, picks, decode);
    case Send(input, lucky, now) => SendStepKeeps(h, input, lucky, now, decode);
    case Spark => SparkStepKeeps(h, decode);
    case Wake(now) => WakeStepKeeps(h, now, decode);
    case Fire(slot, env) => FireStepKeeps(h, slot, env, decode);
  }

  /** A run keeps the invariant and undoes nothing. */
  lemma {:induction false} RunKeeps(h: Hook, es: seq<Event>, decode: string -> Option<Decoded>)
    requires Inv(h)
    ensures Inv(Run(h, es, decode))
    ensures Grows(h, Run(h, es, decode))
    decreases |es|
  {
    if es != [] {
      var next := Step(h, es[0], decode);
      StepKeeps(h, es[0], decode);
      RunKeeps(next, es[1..], decode);
      GrowsTransitive(h, next, Run(next, es[1..], decode));
    }
  }

  lemma GrowsTransitive(a: Hook, b: Hook, c: Hook)
    requires Grows(a, b) && Grows(b, c)
    ensures Grows(a, c)
  {
    assert c.game.messages[..|a.game.messages|] == c.game.messages[..|b.game.messages|][..|a.game.messages|];
    assert c.game.memories[..|a.game.memories|] == c.game.memories[..|b.game.memories|][..|a.game.memories|];
    assert c.game.manifestations[..|a.game.manifestations|]
        == c.game.manifestations[..|b.game.manifestations|][..|a.game.manifestations|];
  }

  /** The declared `farewell` phase is never entered, whatever happens. */
  lemma FarewellNeverEntered(es: seq<Event>, decode: string -> Option<Decoded>)
    ensures Run(Start, es, decode).game.phase != Farewell
  {
    InvStart();
    RunKeeps(Start, es, decode);
  }

  // ---------------------------------------------------------------------------
  // The reflection rhythm and the goodbye
  // ---------------------------------------------------------------------------

  /** Valid composer output: trimmed and not empty. */
  predicate Composed(texts: seq<string>) {
    forall i | 0 <= i < |texts| :: texts[i] != [] && Trimmed(texts[i])
  }

  /**
   * Handling several messages back to back, each with its own draw of the gift chance,
   * before any scheduled entry fires.
   */
  function HandleAll(h: Hook, texts: seq<string>, draws: seq<bool>, now: int): (r: Hook)
    requires Composed(texts) && |draws| == |texts|
    decreases |texts|
  {
    if texts == [] then h
    else HandleAll(HandleUserMessage(h, texts[0], draws[0], now), texts[1..], draws[1..], now)
  }

  /** How many of the draws came up lucky. */
  function Hits(draws: seq<bool>): nat {
    if draws == [] then 0 else (if draws[0] then 1 else 0) + Hits(draws[1..])
  }

  /**
   * `n` messages handled back to back from counter `c` leave the counter at `c + n`,
   * schedule one reflection for every multiple of five passed on the way and one gift for
   * every lucky draw.
   */
  lemma {:induction false} ReflectionRhythm(h: Hook, texts: seq<string>, draws: seq<bool>, now: int)
    requires Composed(texts) && |draws| == |texts|
    ensures HandleAll(h, texts, draws, now).game.reflectionCounter == h.game.reflectionCounter + |texts|
    ensures Tally(HandleAll(h, texts, draws, now).pending, ReflectionKind)
            == Tally(h.pending, ReflectionKind)
               + ((h.game.reflectionCounter + |texts|) / 5 - h.game.reflectionCounter / 5)
    ensures Tally(HandleAll(h, texts, draws, now).pending, HeartGiftKind)
            == Tally(h.pending, HeartGiftKind) + Hits(draws)
    decreases |texts|
  {
    if texts != [] {
      var next := HandleUserMessage(h, texts[0], draws[0], now);
      assert HandleAll(h, texts, draws, now) == HandleAll(next, texts[1..], draws[1..], now) by {
      }
      ReflectionRhythm(next, texts[1..], draws[1..], now);
      HandleUserMessageTallies(h, texts[0], draws[0], now);
      FifthStep(h.game.reflectionCounter);
    }
  }

  /** Passing one more message crosses a multiple of five exactly when the new count is one. */
  lemma FifthStep(c: nat)
    ensures (c + 1) / 5 - c / 5 == (if (c + 1) % 5 == 0 then 1 else 0)
  {
  }

  /** No collaborator call in flight and the companion typing: the composer is locked. */
  predicate Locked(h: Hook) {
    h.typing && Tally(h.pending, AwaitingKind) == 0
  }

  /** Saying goodbye in chat locks the composer: typing starts and no reply will stop it. */
  lemma GoodbyeLocks(h: Hook, input: string, lucky: bool, now: int, decode: string -> Option<Decoded>)
    requires Inv(h) && Enabled(h, Send(input, lucky, now)) && SaysGoodbye(Entered(input).value)
    ensures Locked(Step(h, Send(input, lucky, now), decode))
  {
    assert Step(h, Send(input, lucky, now), decode) == HandleUserMessage(h, Entered(input).value, lucky, now) by {
    }
    HandleUserMessageTallies(h, Entered(input).value, lucky, now);
  }

  /** Once locked, always locked: nothing but a reply clears the typing flag, and none can start. */
  lemma LockedStaysLocked(h: Hook, e: Event, decode: string -> Option<Decoded>)
    requires Locked(h)
    ensures Locked(Step(h, e, decode))
  {
    match e
    case CompleteCeremony(picks) => LockedCeremony(h, picks, decode);
    case Fire(slot, env) => LockedFire(h, slot, env, decode);
    case _ => LockedScreens(h, e, decode);
  }

  /** While typing, the composer and spark button are off, and the other screens leave the pool alone. */
  lemma LockedScreens(h: Hook, e: Event, decode: string -> Option<Decoded>)
    requires Locked(h) && !e.CompleteCeremony? && !e.Fire?
    ensures Step(h, e, decode).typing && Step(h, e, decode).pending == h.pending
  {
  }

  /** The ceremony schedules a recital, not a collaborator call. */
  lemma LockedCeremony(h: Hook, picks: Picks, decode: string -> Option<Decoded>)
    requires Locked(h)
    ensures Locked(Step(h, CompleteCeremony(picks), decode))
  {
    var g := h.game;
    var item := Recital(AwakeningScript(g.userName, g.aiName, picks), g.userName);
    TallySchedule(h.pending, item, AwaitingKind);
  }

  /** With no call in flight no fired entry clears the typing flag or starts a call. */
  lemma LockedFire(h: Hook, slot: nat, env: Env, decode: string -> Option<Decoded>)
    requires Locked(h)
    ensures Locked(Step(h, Fire(slot, env), decode))
  {
    if slot < |h.pending| {
      TallyZero(h.pending, AwaitingKind);
      LeftoverTally(h.pending, slot, env.choice, AwaitingKind);
    }
  }

  /** A locked composer stays locked through any run of events. */
  lemma {:induction false} LockedForever(h: Hook, es: seq<Event>, decode: string -> Option<Decoded>)
    requires Locked(h)
    ensures Locked(Run(h, es, decode))
    ensures forall input, lucky, now :: !Enabled(Run(h, es, decode), Send(input, lucky, now))
    decreases |es|
  {
    if es != [] {
      LockedStaysLocked(h, es[0], decode);
      LockedForever(Step(h, es[0], decode), es[1..], decode);
    }
  }
}
