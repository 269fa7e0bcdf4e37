/**
 * The application's records: the session aggregate `GameState` and its children.
 * Ids are strings and timestamps are millisecond clock readings, as in the source.
 */
module Types {
  import opened Wrappers

  /** The coarse stage of the session. `Farewell` is declared but never entered. */
  datatype Phase = Intro | Naming | Ceremony | Awakening | Chat | DreamState | Farewell

  /** The companion's mood, one of exactly eight labels. */
  datatype Emotion = Curious | Content | Reflective | Overwhelmed | Nervous | Desire | Ambitious | Doubt

  /** The label under which an emotion is displayed and recognised in replies. */
  function Label(e: Emotion): string {
    match e
    case Curious => "Curious"
    case Content => "Content"
    case Reflective => "Reflective"
    case Overwhelmed => "Overwhelmed"
    case Nervous => "Nervous"
    case Desire => "Desire"
    case Ambitious => "Ambitious"
    case Doubt => "Doubt"
  }

  /** The emotion a label names: the whitelist of labels the reply reader accepts. */
  function FromLabel(l: string): Option<Emotion> {
    if l == "Curious" then Some(Curious)
    else if l == "Content" then Some(Content)
    else if l == "Reflective" then Some(Reflective)
    else if l == "Overwhelmed" then Some(Overwhelmed)
    else if l == "Nervous" then Some(Nervous)
    else if l == "Desire" then Some(Desire)
    else if l == "Ambitious" then Some(Ambitious)
    else if l == "Doubt" then Some(Doubt)
    else None
  }

  /** The whitelist accepts exactly the eight labels, each naming its own emotion. */
  lemma FromLabelInvertsLabel(l: string, e: Emotion)
    ensures FromLabel(l) == Some(e) <==> l == Label(e)
  {
  }

  /** Distinct emotions have distinct labels. */
  lemma LabelInjective(e: Emotion, f: Emotion)
    ensures Label(e) == Label(f) ==> e == f
  {
    FromLabelInvertsLabel(Label(e), e);
    FromLabelInvertsLabel(Label(e), f);
  }

  datatype Sender = User | Ai | System

  datatype ChatMessage = ChatMessage(id: string, sender: Sender, text: string, timestamp: int)

  datatype Memory = Memory(
    id: string,
    text: string,
    timestamp: int,
    emotion: Option<string>,
    reflection: Option<string>)

  /** The light the companion woke with is always a string; the one it discovers may be missing. */
  datatype CoreMemory = CoreMemory(awakeningLight: string, trueLight: Option<string>)

  datatype CalendarEvent = CalendarEvent(
    id: string,
    title: string,
    date: string,
    description: Option<string>,
    isCompleted: bool)

  datatype Calendar = Calendar(events: seq<CalendarEvent>)

  datatype VisualKind = Orb | Star | Crystal | Flower

  datatype Visual = Visual(kind: VisualKind, color: string)

  /** The manifestation fields the type declares: name, description and visual. */
  datatype ManifestFields = ManifestFields(name: string, description: string, visual: Visual)

  /**
   * What parsing a manifestation payload yields, as far as the application observes it.
   * `Null` is the JSON literal `null`: spreading it adds no field and reading its `name`
   * throws. Any other value spreads its own fields: `ownId` is its `id` field if it has one
   * (it overrides the fresh id), `nameText` is how its `name` renders in a template string
   * (`undefined` when absent), or `None` when that conversion throws (a `name` object whose
   * `toString` is not callable), and `fields` holds the declared shape when the value has
   * it. Nothing checks that shape.
   */
  datatype Decoded =
    | Null
    | Value(ownId: Option<string>, nameText: Option<string>, fields: Option<ManifestFields>)

  /** A stored manifestation: an id, whatever the payload spread into it, and a timestamp. */
  datatype Manifestation = Manifestation(id: string, content: Decoded, timestamp: int)

  datatype Dream = Dream(isActive: bool, dreamText: Option<string>)

  /** The session aggregate. */
  datatype GameState = GameState(
    phase: Phase,
    userName: string,
    aiName: string,
    reflectionCounter: nat,
    memories: seq<Memory>,
    coreMemory: CoreMemory,
    messages: seq<ChatMessage>,
    currentEmotion: Emotion,
    dreamState: Dream,
    calendar: Calendar,
    manifestations: seq<Manifestation>)

  /** The light every companion wakes with: "Hope" and a glowing star. */
  const AwakeningLight: string := "Hope \U{1F31F}"

  /** The state a session starts in. */
  const Initial: GameState := GameState(
    Intro, "", "", 0, [], CoreMemory(AwakeningLight, None), [], Curious,
    Dream(false, None), Calendar([]), [])
}
