# Sky companion: the game hook, its reply reader, the growth tree and the calendar

This project models the core of a small single-page companion game. The user names
themselves and a newly "awakened" AI companion. They sit through an awakening ceremony and
then chat with it. The companion replies through a remote text generator.

The core is the `useGame` hook. It holds one `GameState` snapshot and changes it through a
fixed set of transformations:

- adding a message;
- the onboarding steps and the timed awakening script;
- the reflection that reveals a "true light";
- the heart gift and the farewell;
- waking from a dream;
- the calendar operations.

It also reads each reply of the companion for:

- an `[EMOTION:word]` tag;
- the `[DREAM_START]`/`[DREAM_END]` markers;
- a `[MANIFEST]…[/MANIFEST]` block whose payload is decoded as a manifestation.

Two views derive their contents from the snapshot. The growth tree picks a leaf colour from
the discovered light, a depth from the number of memories and a scale from the reflection
counter. It then generates a full binary tree of branches. The calendar screen moves between
months, builds `YYYY-MM-DD` keys for the days, filters events by key, sorts the stored events
by date in place when it renders, and validates its form.

The modules follow that structure.

- `Wrappers` holds `Option`.
- `Text` covers the string operations the source relies on: `trim`, `indexOf`, `includes`,
  `replace` of a first occurrence, `split`, ASCII case mapping, `String(n)` and
  `padStart(2, '0')`.
- `Types` holds the records of `types.ts`. `Constants` holds the text pools of `constants.ts`.
- `Interpreter` is the reply reader. It is one function, `Interpret`, for both copies in the
  source. The copies differ in two ways, selected by a `Turn`: the spark copy has no dream-end
  branch and no `"..."` substitute.
- `Session` holds every state transformation as a pure function of the latest snapshot.
  Each one comes with a frame condition naming the fields it may touch.
- `Controller` models the hook as a whole. A hook is the snapshot, the typing flag and a
  pool of pending work: timers, the awakening loop and awaited collaborator calls. Events are
  the user's actions that the screens enable, plus `Fire`, which runs any pending entry in any
  order. It states the invariants every reachable hook satisfies.
- `GrowthTree` and `CalendarScreen` model the two components.

Clock readings, random draws, the collaborator's reply and `JSON.parse` are parameters. A
message or memory created at clock reading `now` has id `String(now)`.

Where the code and its written description differ, the model follows the code:

- **Awakening timing.** The awakening script's delays are awaited one after another. The
  lines appear 1 s, 4 s, 10 s, 19 s, 31 s, 46 s, 64 s and 85 s after the ceremony, and the
  greeting appears at 88 s (`Session.AwakeningTimeline`). The lines are not shown at fixed
  offsets.
- **Untagged replies are not trimmed.** A reply without an emotion tag is not trimmed. The
  fallback `"..."` replaces only the empty reply.
- **Typing after a goodbye.** A goodbye message sets the typing flag and nothing ever clears
  it. The composer stays disabled for the rest of the session (`Controller.LockedForever`).
- **Farewell phase.** The declared phase `farewell` is never entered
  (`Controller.FarewellNeverEntered`).
- **Year-99 month steps.** The calendar's month buttons build `new Date(year, month ± 1, 1)`.
  For a year from 0 to 99 this means 1900 plus that year. So "next month" from December 99
  jumps to January 2000 (`CalendarScreen.NextFromYear99`).
- **Calendar not reachable from the app.** The calendar screen and its three handlers are
  not mounted by the application shell. They are modelled as functions with lemmas but are
  not events of the hook.

## Model

| member | source | states |
|---|---|---|
| Types.FromLabelInvertsLabel | src/types.ts:42 | the emotion whitelist accepts exactly the eight labels of `EmotionState`, each naming its own emotion |
| Types.LabelInjective | src/types.ts:42 | distinct emotions have distinct labels |
| Constants.LightShape | src/constants.ts:22-34 | every light of the pool is a non-empty name, one space and a non-empty glyph, neither holding a space |
| Constants.Pick | src/hooks/useGame.ts:120 | the drawn entry is always a member of the pool; an in-range draw picks that entry |
| Text.Trim | src/hooks/useGame.ts:185 | `trim` yields a piece of the input with only white space before and after it in the input, itself with no white space at either end; it is empty exactly when the input is all white space, and leaves an already trimmed string alone |
| Text.TrimIdempotent | src/hooks/useGame.ts:185 | trimming twice is trimming once |
| Text.IncludesSpec | src/hooks/useGame.ts:193 | `includes` holds exactly when the pattern occurs somewhere, and `indexOf` finds the first occurrence |
| Text.RemoveFirst | src/hooks/useGame.ts:194 | `replace` of a string pattern removes exactly the first occurrence, leaving the text before and after it intact, and leaves a text without the pattern unchanged |
| Text.Split | src/hooks/useGame.ts:349-350 | `split(' ')` yields at least one part and no part holds the separator |
| Text.JoinSplit | src/hooks/useGame.ts:349-350 | joining the parts of a split with the separator gives the text back |
| Text.FirstWord | src/components/GrowthTree.tsx:26 | `split(' ')[0]` is the text up to the first space, or the whole text when it holds no space |
| Text.Lower | src/hooks/useGame.ts:126 | `toLowerCase`, restricted to ASCII: the length is kept, each ASCII capital is lowered in place and every other character is kept |
| Text.ParseDigitsOfDigits | src/hooks/useGame.ts:356 | the decimal digits of a clock reading read back as that reading |
| Text.DecimalInjective | src/hooks/useGame.ts:356 | distinct clock readings give distinct `String(now)` ids |
| Text.TwoDigits | src/components/CalendarScreen.tsx:47 | `String(n).padStart(2, '0')` for a month or day below 100 is two digits spelling `n` |
| Interpreter.LeadingTagIsRegexMatch | src/hooks/useGame.ts:178 | the tag scanner finds a tag exactly where `/\[EMOTION:([A-Za-z]+)\]/i` matches, with the same captured word |
| Interpreter.FirstTag | src/hooks/useGame.ts:178 | the tag found is the leftmost one, and none is found exactly when the text holds no tag |
| Interpreter.StripTagsIdentity | src/hooks/useGame.ts:185 | the global tag removal changes the text exactly when it holds a tag |
| Interpreter.StripTagsShrinks | src/hooks/useGame.ts:185 | removing the tags of a text that holds one makes it strictly shorter |
| Interpreter.ParseEmotionIgnoresCase | src/hooks/useGame.ts:180-184 | the captured word is accepted as emotion `e` exactly when it spells `e`'s label in some mix of case |
| Interpreter.FirstBlockIsLeftmostLazyMatch | src/hooks/useGame.ts:211 | a manifest block is found exactly when an opening is followed by a closing, and the block found starts leftmost and ends at the first closing after it |
| Interpreter.BlockSplitsText | src/hooks/useGame.ts:211-212 | the text is the part before the block, the opening, the payload, the closing and the part after |
| Interpreter.EmotionFromFirstTag | src/hooks/useGame.ts:177-186 | only the first tag decides the emotion: it is `e` exactly when the first tag's word spells `e`, and there is none without a tag |
| Interpreter.TagsRemovedWhenPresent | src/hooks/useGame.ts:185 | once the reply holds a tag, the tags found by one left-to-right scan are removed, whether their word is accepted or not, the rest is trimmed, and the reply gets strictly shorter; a tag that the removal itself brings together stays |
| Interpreter.StripTagsCutsFirst | src/hooks/useGame.ts:185 | the global replace, one match at a time: without a tag the text is unchanged; otherwise the text before the leftmost tag is kept, the tag is cut, and the scan resumes right after it |
| Interpreter.LeadingTagCut | src/hooks/useGame.ts:178-185 | a tag at the front decides the emotion by its word, and is cut out whether or not that word names an emotion |
| Interpreter.DreamStartFirst | src/hooks/useGame.ts:193-200 | a reply holding the dream-start marker enters the dream, whatever else it holds, with trimmed content |
| Interpreter.SparkNeverLeavesDream | src/hooks/useGame.ts:296-333 | a reply to a spark never reads as leaving the dream: that copy has no dream-end branch |
| Interpreter.PlainReplyVerbatim | src/hooks/useGame.ts:237-239 | a reply with no tag and no marker is said verbatim, the empty user-turn reply as `"..."` |
| Interpreter.ManifestDecodesOnlyPayload | src/hooks/useGame.ts:209-232 | a manifestation is made only from the first block's non-empty payload, and a non-empty payload is always handed to the decoder |
| Interpreter.DreamFrame | src/hooks/useGame.ts:193-200 | a trimmed text framed by the two dream markers enters the dream with exactly that text |
| Interpreter.DreamFrameContent | src/hooks/useGame.ts:194 | removing the first start marker and then the first end marker from a framed text gives the text back |
| Session.AddMessage | src/hooks/useGame.ts:41-52 | exactly one message is appended, with the given sender and text; nothing else changes |
| Session.SetUserName | src/hooks/useGame.ts:54-56 | the user name is stored and the naming screen follows; nothing else changes |
| Session.SetAiName | src/hooks/useGame.ts:58-60 | the companion's name is stored and the ceremony follows; nothing else changes |
| Session.StartAwakening | src/hooks/useGame.ts:62-65 | only the phase changes, to the awakening |
| Session.AwakeningScript | src/hooks/useGame.ts:71-80 | the awakening script has eight lines |
| Session.FinishAwakening | src/hooks/useGame.ts:89-101 | the awakening ends in chat with the awakening memory recorded and the greeting appended; nothing else changes |
| Session.PlayLinesContent | src/hooks/useGame.ts:82-85 | the loop appends each script line, in order, as a system message |
| Session.AwakeningShape | src/hooks/useGame.ts:62-102 | the whole awakening appends the script lines then the greeting by the user name captured at the start, records one memory and ends in chat, keeping the earlier messages |
| Session.AwakeningTimeline | src/hooks/useGame.ts:71-87 | with sequential delays the lines appear at 1 s, 4 s, 10 s, 19 s, 31 s, 46 s, 64 s and 85 s, and the greeting at 88 s |
| Session.RevealLight | src/hooks/useGame.ts:346-363 | the revealed light replaces the true light, keeps the awakening light, records one memory and appends one message by the companion |
| Session.LightMemoryGlyph | src/hooks/useGame.ts:349-359 | for a light of name-space-glyph shape the memory's emotion is the glyph, and name, space and glyph give the light back |
| Session.PoolLightHasGlyph | src/hooks/useGame.ts:343-350 | every light of the pool has that shape, so the `'✨'` fallback never applies to a drawn light |
| Session.GoodbyeContainsBye | src/hooks/useGame.ts:126 | the farewell test holds exactly when the lowered text contains `"bye"`; the second disjunct is redundant |
| Session.WakeFromDream | src/hooks/useGame.ts:372-379 | waking returns to chat with the dream cleared and one system message appended; nothing else changes |
| Session.ApplyReading | src/hooks/useGame.ts:188-239 | applying a reading touches only emotion, phase, dream, messages and manifestations, only appends, and sets the emotion exactly when the reading names one |
| Session.ApplyReadingKeeps | src/hooks/useGame.ts:188-239 | a reading never undoes the names, counter, memories, messages, manifestations or lights |
| Session.ApplyReadingPhase | src/hooks/useGame.ts:195-208 | leaving the dream goes to chat, entering it goes to the dream, and every other reading keeps the phase |
| Session.SayAppendsOne | src/hooks/useGame.ts:237-239 | a plain reply appends exactly one message by the companion and no manifestation |
| Session.ReplyEmotion | src/hooks/useGame.ts:177-190 | after a reply the emotion changes to `e` exactly when the first tag spells `e`, and stays without a tag |
| Session.DreamReplyEffect | src/hooks/useGame.ts:193-200 | a dream-start reply sets the dream phase, stores the dream text and says that same text |
| Session.ManifestEffect | src/hooks/useGame.ts:209-236 | a decoded payload adds one manifestation; the announcement appears exactly when the payload is not null and its name renders as text, and then is a system message naming it; the residual text appears only when non-empty; the phase and dream stay |
| Session.HistoryAppend | src/hooks/useGame.ts:152-157 | the history of two runs of messages is the history of each, concatenated |
| Session.HistoryOfOne | src/hooks/useGame.ts:152-157 | a user message becomes a user part, a companion message a model part, and a system message nothing |
| Session.BuildRequest | src/hooks/useGame.ts:152-170 | the request's history is the chat history followed by the prompt as a user part, and the emotion label is the context |
| Session.ToggleTwice | src/hooks/useGame.ts:402-411 | toggling the same id twice restores the events |
| Session.Toggle | src/hooks/useGame.ts:402-411 | toggling flips completion of exactly the events with that id and keeps every other event and the order |
| Session.Remove | src/hooks/useGame.ts:413-421 | deletion keeps exactly the events whose id differs |
| Session.RemoveAppend | src/hooks/useGame.ts:413-421 | deletion distributes over concatenation |
| Session.RemoveFreshAdded | src/hooks/useGame.ts:387-421 | deleting an event just added under a fresh id restores the earlier events |
| Session.RemoveAbsent | src/hooks/useGame.ts:413-421 | deleting an id no event has changes nothing |
| Session.AddEvent | src/hooks/useGame.ts:387-400 | one uncompleted event is appended with the given fields; only the calendar changes |
| Session.ToggleEvent | src/hooks/useGame.ts:402-411 | only the calendar changes, by a toggle |
| Session.DeleteEvent | src/hooks/useGame.ts:413-421 | only the calendar changes, by a deletion |
| Controller.Timers | src/hooks/useGame.ts:111-123 | a message schedules one reflection when the new counter is a multiple of five and one gift when lucky |
| Controller.FollowUp | src/hooks/useGame.ts:125-170 | a message that says goodbye is followed by the farewell, and every other message by a call for a reply |
| Controller.FollowUpContent | src/hooks/useGame.ts:125-170 | the farewell names the companion, the user and, once found, the true light; the call is a user turn whose history is the chat so far followed by the message, with the current mood as context |
| Session.FarewellText | src/hooks/useGame.ts:128-145 | the farewell speech contains the companion's name and the user's name, and the true light when there is one, or the hope lines when there is none |
| Controller.HandleUserMessage | src/hooks/useGame.ts:104-170 | sending appends the user message, raises the counter by one, sets typing, and schedules the timers and the follow-up |
| Controller.HandleUserMessageTallies | src/hooks/useGame.ts:104-170 | sending adds reflections, gifts and collaborator calls to the pending work by those rules and never an awakening loop |
| Controller.TriggerConversation | src/hooks/useGame.ts:248-273 | the spark sets typing and schedules one call with the spark prompt, leaving the snapshot alone |
| Controller.ReplyKeeps | src/hooks/useGame.ts:174-239 | reading a reply keeps what a session never undoes and leaves the phase, chat or dream; a spark reply never reaches chat from elsewhere |
| Controller.ReceiveKeeps | src/hooks/useGame.ts:172-245 | a reply keeps the session; an empty spark reply changes nothing; an unreadable user reply only adds the disconnection message |
| Controller.LeftoverTally | src/hooks/useGame.ts:82-102 | running an entry removes it from the pending work and adds its successor: the next loop step or the revelation |
| Controller.PerformKeeps | src/hooks/useGame.ts:41-379 | any scheduled work keeps the session; the loop's end goes to chat, a reply may go to chat or dream, and everything else keeps the phase |
| Controller.FireKeeps | src/hooks/useGame.ts:62-379 | running pending work from a reachable hook gives a reachable hook and undoes nothing |
| Controller.SendKeeps | src/hooks/useGame.ts:104-170 | sending in chat keeps the invariant and undoes nothing |
| Controller.CeremonyKeeps | src/hooks/useGame.ts:62-87 | completing the ceremony schedules the one awakening loop and keeps the invariant |
| Controller.SparkKeeps | src/hooks/useGame.ts:248-273 | the spark keeps the invariant: at most one call in flight, while typing in chat |
| Controller.StepKeeps | src/App.tsx:36-72 | every event the screens offer, including a name form submitted again while its screen fades out, keeps the invariant and undoes nothing |
| Controller.RenameWhileFading | src/App.tsx:36-44 | a name form submitted again during its exit fade renames that side, so the user's name can change in the naming phase and the companion's in the ceremony phase |
| Controller.RunKeeps | src/App.tsx:36-72 | every sequence of events keeps the invariant and undoes nothing |
| Controller.FarewellNeverEntered | src/types.ts:14-21 | no sequence of events from a fresh hook ever reaches the declared `farewell` phase |
| Controller.ReflectionRhythm | src/hooks/useGame.ts:104-123 | for messages handled back to back, each with its own gift draw, the counter rises by their number, one reflection is scheduled for every multiple of five passed, and one gift for every lucky draw |
| Controller.TallyAppend | src/hooks/useGame.ts:104-170 | counts of pending work add up over concatenation |
| Controller.TallyZero | src/hooks/useGame.ts:104-170 | no pending work of a kind exactly when no entry has that kind |
| Controller.GoodbyeLocks | src/hooks/useGame.ts:125-148 | a goodbye sets typing and schedules no reply, so nothing can clear the flag |
| Controller.LockedStaysLocked | src/hooks/useGame.ts:125-172 | once typing is set with no reply pending, every event keeps it so |
| Controller.LockedForever | src/components/ChatScreen.tsx:144 | after a goodbye the composer stays disabled through any sequence of events |
| GrowthTree.LightName | src/components/GrowthTree.tsx:26 | without a light, or with an empty one, the name is "Hope"; otherwise it is a prefix of the light holding no space and followed by a space or by the end of the light, that is, its first word |
| GrowthTree.LeafColor | src/components/GrowthTree.tsx:10-27 | the leaf colour is always one of the table's colours, the default being Hope's |
| GrowthTree.PoolLightColor | src/components/GrowthTree.tsx:10-27 | every light the pool can reveal has its own entry, and the tree takes that entry's colour |
| GrowthTree.NoLightIsAwakeningColor | src/components/GrowthTree.tsx:26-27 | without a light, or with an empty one, the tree has the colour of the awakening light |
| GrowthTree.MaxDepth | src/components/GrowthTree.tsx:31 | the depth is between two and seven, grows by one for every two memories and is seven from ten memories on |
| GrowthTree.MaxDepthMonotone | src/components/GrowthTree.tsx:31 | more memories never give a shallower tree |
| GrowthTree.Level | src/components/GrowthTree.tsx:131 | the growth stage shown is between one and six and one less than the depth |
| GrowthTree.Scale | src/components/GrowthTree.tsx:32 | the scale is between one half and 1.2, growing by one hundredth per reflection until the cap at seventy |
| GrowthTree.Branches | src/components/GrowthTree.tsx:35-95 | a subtree is empty exactly at depth zero, starts with its own branch, draws branches only at depths up to its own, fills every leaf and glow with the leaf colour, and draws a leaf then a glow right after every depth-one branch and nowhere else |
| GrowthTree.BranchCounts | src/components/GrowthTree.tsx:35-95 | a tree of depth `d` has `2^d - 1` branches and one leaf and one glow at each of its `2^(d-1)` tips |
| GrowthTree.DrawTree | src/components/GrowthTree.tsx:24-99 | the tree's depth and level agree, its colour is from the table, every leaf and glow takes it, and leaves with their glows sit exactly at the tips |
| GrowthTree.RevealRecolorsTree | src/hooks/useGame.ts:352-362 | revealing a pool light recolours the garden's tree with that light's colour and never shrinks it |
| CalendarScreen.DateOf | src/components/CalendarScreen.tsx:29 | `new Date(year, month, 1)` normalises the month into 0..11, carrying into the year, and reads years 0..99 as 1900 onwards |
| CalendarScreen.PrevMonth | src/components/CalendarScreen.tsx:28-30 | the previous month is one month earlier, outside years 0..99 |
| CalendarScreen.NextMonth | src/components/CalendarScreen.tsx:32-34 | the next month is one month later, outside years 0..99 |
| CalendarScreen.NextUndoesPrev | src/components/CalendarScreen.tsx:28-34 | going back a month then forward returns to the same month, away from years 0..100 |
| CalendarScreen.PrevUndoesNext | src/components/CalendarScreen.tsx:28-34 | going forward a month then back returns to the same month, away from years -1..99 |
| CalendarScreen.NextFromYear99 | src/components/CalendarScreen.tsx:28-34 | from December 99 "next" jumps to January 2000, while "previous" from January 100 gives December 99 |
| CalendarScreen.DateKey | src/components/CalendarScreen.tsx:47 | the day's key is the year, a dash, the two-digit month and a dash with the two-digit day |
| CalendarScreen.DateKeyInjective | src/components/CalendarScreen.tsx:47 | different days of the calendar have different keys |
| CalendarScreen.EventsOn | src/components/CalendarScreen.tsx:48 | a day shows exactly the events dated with its key |
| CalendarScreen.EventsOnAppend | src/components/CalendarScreen.tsx:48 | the filter distributes over concatenation |
| CalendarScreen.ShownOnOneDay | src/components/CalendarScreen.tsx:46-49 | no event is shown on two different days |
| CalendarScreen.AddedShowsOnItsDay | src/components/CalendarScreen.tsx:46-49 | an added event appears on its own day, after that day's earlier events, and on no other |
| CalendarScreen.SortByTime | src/components/CalendarScreen.tsx:175-176 | the render's sort leaves a permutation of the events in order of their dates' times |
| CalendarScreen.InsertKeepsDays | src/components/CalendarScreen.tsx:175-176 | one step of the stable sort puts the event first among its day's events and moves no other event |
| CalendarScreen.SortKeepsDays | src/components/CalendarScreen.tsx:175-176 | sorting on render changes no day's list of events, order included |
| CalendarScreen.ToggleKeepsDays | src/components/CalendarScreen.tsx:46-49 | after a toggle each day shows its own events, in the same order, toggled: the day filter and the toggle commute |
| Session.ToggleAppend | src/hooks/useGame.ts:402-411 | toggling distributes over concatenation |
| CalendarScreen.Submit | src/components/CalendarScreen.tsx:36-44 | the form adds one event exactly when the title is not blank and a date is set; it stores the trimmed title and description, closes and clears the form and keeps the date; otherwise nothing changes |
| CalendarScreen.SubmitTwiceAddsOnce | src/components/CalendarScreen.tsx:36-44 | submitting again after a submission adds nothing more |
| CalendarScreen.SubmitWellFormed | src/components/CalendarScreen.tsx:36-44 | the form only stores events with a non-blank trimmed title and a date |
| CalendarScreen.ToggleWellFormed | src/hooks/useGame.ts:402-411 | toggling keeps the events well formed |
| CalendarScreen.RemoveWellFormed | src/hooks/useGame.ts:413-421 | deleting keeps the events well formed |

## Left out

- Rendering, layout, scrolling (`messagesEndRef`) and the screens' animations are not modelled. The screens appear only as the gates on which events are possible.
- Timers and awaits become entries of a pending pool that fire in any order. Actual durations appear only in `Session.AwakeningTimeline`.
- `Math.random()` is a parameter: the `lucky` flag of a message and the `choice` index of a draw. The 10% probability is not modelled.
- `Date.now()` is the parameter `now`. Whether two readings coincide is left to the caller.
- `JSON.parse` is the parameter `decode`. It returns `None` when parsing throws; a decoded value keeps only its own `id` and its `name` text.
- The text generator behind `generateAIResponse` is not modelled. It is represented by the reply in `Env`, or `None` when the reply has no text. The request is built but not sent.
- The `catch` of a user turn (src/hooks/useGame.ts:241-245) is modelled for a reply without text: `Controller.Receive` with `None` on a user turn adds the disconnection line. The spark skips a missing or empty reply through its `if (response)` test (src/hooks/useGame.ts:276), so its own `catch` (src/hooks/useGame.ts:335-339) would be reached only by an error thrown inside the call or the reader; no such error arises in the model and that `catch` is not modelled.
- `Controller.CeremonyKeeps`: the ceremony button is assumed to fire once. The screen leaves the ceremony phase as soon as it does. In the same way the wake button of the dream screen stays clickable during its one-second exit animation (src/components/DreamStateScreen.tsx:15 and :64), so a second click would append a second wake message; the model offers `Wake` only in the dream phase, so it covers a single click.
- The memory garden, manifestation gallery, dream screen and ceremony screen are left out beyond the events they raise and the tree they draw.
- `GrowthTree.Branches`: angles, lengths, coordinates and stroke widths are not modelled; a shape keeps only its kind, depth and fill.
- `GrowthTree.Scale`: uses exact rationals, not IEEE doubles.
- `GrowthTree.LeafColor`: ignores the inherited keys of a JavaScript object, such as `constructor`, which the colour lookup would also find.
- `CalendarScreen.SortByTime`: `new Date(date).getTime()` is the parameter `time`, a whole number for every date. A date string that does not parse gives `NaN`, which makes the comparator inconsistent and the order implementation-defined; that case is not modelled. The sort runs in place on every render of the calendar screen, so later additions, toggles and deletions start from the sorted order. The model states the day-list properties for any stored order, so they hold from the sorted one too, and `SortKeepsDays` shows the sort itself changes no day's list.
- Controller.Grows: the user's name is promised fixed only from the ceremony on, and the companion's only from the awakening on. The intro and naming forms stay mounted and can be submitted again while they fade out (src/App.tsx:36 waits for the exit before mounting the next screen), so a name can still change one phase later.
- The calendar's days-in-month, first weekday, today highlighting and the date picker's default of today are not modelled. The days are taken to be 1 to 31.
- `CalendarScreen.NextUndoesPrev` and `CalendarScreen.PrevUndoesNext` are stated only away from years 0 to 100, where `new Date` reinterprets the year.
- The calendar handlers are not events of `Controller`, because the application shell never mounts the calendar screen.
- Strings are sequences of Unicode scalar values, not UTF-16 code units. No modelled operation depends on the difference.
- The emotion is the one in the snapshot when the request is built. A later change before the reply is not reflected in that request.
- Text.Lower: maps only the ASCII capitals A to Z, while JavaScript's `toLowerCase` lowers every Unicode capital. The only uses are the farewell test for the ASCII words "bye" and "goodbye", which a lowered non-ASCII capital can neither create nor destroy, and the emotion word, which the tag pattern restricts to ASCII letters; so the difference changes no outcome of the model.
- Session.AwakeningScript: states only that there are eight lines. The wording of each line, with its random draws from the pools, is given by the definition alone.
