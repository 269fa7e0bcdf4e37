/**
 * The response interpreter: how the companion's free-text reply is read for an
 * `[EMOTION:word]` tag, the `[DREAM_START]`/`[DREAM_END]` markers and a
 * `[MANIFEST]...[/MANIFEST]` block. The two copies of the reading code (after a
 * user message and after a "spark") differ in two places, selected by `Turn`.
 */
module Interpreter {
  import opened Wrappers
  import opened Text
  import opened Types

  // ---------------------------------------------------------------------------
  // Emotion tags: /\[EMOTION:([A-Za-z]+)\]/i
  // ---------------------------------------------------------------------------

  /** The tag's opening, matched without regard to case. */
  const EmotionOpen: string := "[EMOTION:"

  /** `s` starts with `[EMOTION:` in any mix of upper and lower case. */
  predicate OpensTag(s: string) {
    |s| >= 9 && forall k | 0 <= k < 9 :: UpperChar(s[k]) == EmotionOpen[k]
  }

  /** The length of the run of ASCII letters `s` starts with. */
  function LetterRun(s: string): (n: nat)
    ensures n <= |s|
    ensures forall k | 0 <= k < n :: IsAsciiLetter(s[k])
    ensures n == |s| || !IsAsciiLetter(s[n])
  {
    if s != [] && IsAsciiLetter(s[0]) then 1 + LetterRun(s[1..]) else 0
  }

  /** A tag found in a reply: its word and the number of characters it spans. */
  datatype Tag = Tag(word: string, len: nat)

  /** The emotion tag at the very start of `s`, if there is one. */
  function LeadingTag(s: string): (t: Option<Tag>)
    ensures t.Some? ==> t.value.len == |t.value.word| + 10 <= |s|
  {
    if !OpensTag(s) then None
    else
      var n := LetterRun(s[9..]);
      if n > 0 && 9 + n < |s| && s[9 + n] == ']' then Some(Tag(s[9..9 + n], 10 + n)) else None
  }

  /**
   * The regular expression's own reading: a case-insensitive `[EMOTION:`, one or more
   * ASCII letters captured as `w`, then `]`.
   */
  predicate TagMatch(s: string, w: string) {
    && OpensTag(s)
    && |w| >= 1
    && (forall k | 0 <= k < |w| :: IsAsciiLetter(w[k]))
    && 10 + |w| <= |s|
    && s[9..9 + |w|] == w
    && s[9 + |w|] == ']'
  }

  /** The scanner finds a tag exactly where the regular expression matches, with the same word. */
  lemma LeadingTagIsRegexMatch(s: string, w: string)
    ensures LeadingTag(s) == Some(Tag(w, |w| + 10)) <==> TagMatch(s, w)
  {
    if TagMatch(s, w) {
      var n := LetterRun(s[9..]);
      assert forall k | 0 <= k < |w| :: s[9..][k] == w[k];
      assert s[9..][|w|] == ']';
      assert !IsAsciiLetter(s[9..][|w|]);
      assert n <= |w|;
      assert n >= |w|;
    }
    if LeadingTag(s) == Some(Tag(w, |w| + 10)) {
      var n := LetterRun(s[9..]);
      assert forall k | 0 <= k < n :: w[k] == s[9..][k];
    }
  }

  /** `s` holds no emotion tag anywhere. */
  predicate TagFree(s: string) {
    forall k | 0 <= k < |s| :: LeadingTag(s[k..]).None?
  }

  /** Where a tag was found and what it was. */
  datatype Found = Found(at: nat, tag: Tag)

  /** `s.match(regex)`: the leftmost emotion tag in `s`. */
  function FirstTag(s: string): (r: Option<Found>)
    ensures r.Some? ==> r.value.at < |s| && LeadingTag(s[r.value.at..]) == Some(r.value.tag)
    ensures r.Some? ==> forall k | 0 <= k < r.value.at :: LeadingTag(s[k..]).None?
    ensures r.None? <==> TagFree(s)
    decreases |s|
  {
    if s == [] then None
    else match LeadingTag(s)
      case Some(t) => Some(Found(0, t))
      case None =>
        var rest := FirstTag(s[1..]);
        assert forall k | 1 <= k < |s| :: s[1..][k - 1..] == s[k..];
        match rest
        case None => None
        case Some(f) => Some(Found(f.at + 1, f.tag))
  }

  /** `s.replace(regex_with_g_flag, '')`: every tag found scanning left to right is cut out. */
  function StripTags(s: string): (r: string)
    ensures |r| <= |s|
    decreases |s|
  {
    if s == [] then []
    else match LeadingTag(s)
      case Some(t) => StripTags(s[t.len..])
      case None => [s[0]] + StripTags(s[1..])
  }

  /** Stripping leaves `s` unchanged exactly when `s` holds no tag. */
  lemma {:induction false} StripTagsIdentity(s: string)
    ensures StripTags(s) == s <==> TagFree(s)
    decreases |s|
  {
    if s != [] {
      assert forall k | 1 <= k < |s| :: s[1..][k - 1..] == s[k..];
      match LeadingTag(s)
      case Some(t) =>
        assert s[0..] == s;
        assert |StripTags(s)| < |s|;
      case None =>
        StripTagsIdentity(s[1..]);
        if !TagFree(s) {
          assert !TagFree(s[1..]);
          StripTagsShrinks(s[1..]);
        }
    }
  }

  /** A string that holds a tag loses at least the tag when stripped. */
  lemma {:induction false} StripTagsShrinks(s: string)
    requires !TagFree(s)
    ensures |StripTags(s)| < |s|
    decreases |s|
  {
    assert s != [];
    match LeadingTag(s)
    case Some(t) =>
    case None =>
      assert forall k | 1 <= k < |s| :: s[1..][k - 1..] == s[k..];
      assert s[0..] == s;
      assert !TagFree(s[1..]);
      StripTagsShrinks(s[1..]);
  }

  /** Stripping `s` keeps its first `at` characters, drops the next `len` and goes on after them. */
  predicate CutAt(s: string, at: nat, len: nat) {
    at + len <= |s| && StripTags(s) == s[..at] + StripTags(s[at + len..])
  }

  /**
   * The global replace, one match at a time: nothing changes without a tag, and otherwise
   * the text before the leftmost tag is kept, the tag is cut and the scan resumes after it.
   */
  lemma {:induction false} StripTagsCutsFirst(s: string)
    ensures FirstTag(s).None? ==> StripTags(s) == s
    ensures FirstTag(s).Some? ==> CutAt(s, FirstTag(s).value.at, FirstTag(s).value.tag.len)
    decreases |s|
  {
    if FirstTag(s).None? {
      StripTagsIdentity(s);
    } else if LeadingTag(s).Some? {
      assert s[0..] == s;
      assert s[..0] == [];
    } else {
      var f := FirstTag(s[1..]).value;
      StripTagsCutsFirst(s[1..]);
      CutAfterFirst(s, f.at, f.tag.len);
    }
  }

  /** A cut found past a first character that opens no tag is the same cut one place later. */
  lemma CutAfterFirst(s: string, at: nat, len: nat)
    requires s != [] && LeadingTag(s).None? && CutAt(s[1..], at, len)
    ensures CutAt(s, at + 1, len)
  {
    var u := s[1..];
    var rest := StripTags(u[at + len..]);
    assert StripTags(s) == [s[0]] + StripTags(u);
    assert u[at + len..] == s[at + 1 + len..];
    assert [s[0]] + u[..at] == s[..at + 1];
    assert [s[0]] + (u[..at] + rest) == ([s[0]] + u[..at]) + rest;
  }

  /**
   * A tag at the very start decides the emotion by its word, accepted or not, and is cut
   * out of the text whether the word names an emotion or not.
   */
  lemma LeadingTagCut(w: string, rest: string)
    requires |w| >= 1 && forall k | 0 <= k < |w| :: IsAsciiLetter(w[k])
    ensures EmotionOf(EmotionOpen + w + "]" + rest) == ParseEmotion(w)
    ensures Cleaned(EmotionOpen + w + "]" + rest) == Trim(StripTags(rest))
  {
    var t := EmotionOpen + w + "]";
    assert TagMatch(t, w) by {
      assert t[9..9 + |w|] == w;
      assert forall k | 0 <= k < 9 :: t[k] == EmotionOpen[k];
    }
    LeadingTagIsRegexMatch(t, w);
    LeadingTagPrefix(t, rest);
    StripLeadingTag(t, rest);
    var s := EmotionOpen + w + "]" + rest;
    assert s == t + rest;
  }

  /** A tag at the start of a reply is cut out and the rest is stripped on its own. */
  lemma StripLeadingTag(t: string, rest: string)
    requires LeadingTag(t).Some? && LeadingTag(t).value.len == |t|
    ensures StripTags(t + rest) == StripTags(rest)
  {
    var s := t + rest;
    assert s[..|t|] == t;
    LeadingTagPrefix(t, rest);
    assert s[|t|..] == rest;
  }

  /** A tag at the start of `t` is still there, unchanged, once more text follows. */
  lemma LeadingTagPrefix(t: string, rest: string)
    requires LeadingTag(t).Some? && LeadingTag(t).value.len == |t|
    ensures LeadingTag(t + rest) == LeadingTag(t)
  {
    var s := t + rest;
    var w := LeadingTag(t).value.word;
    LeadingTagIsRegexMatch(t, w);
    assert forall k | 0 <= k < |t| :: s[k] == t[k];
    assert s[9..9 + |w|] == t[9..9 + |w|];
    LeadingTagIsRegexMatch(s, w);
  }

  // ---------------------------------------------------------------------------
  // The emotion whitelist
  // ---------------------------------------------------------------------------

  /** `w.charAt(0).toUpperCase() + w.slice(1).toLowerCase()`. */
  function Capitalize(w: string): string {
    if w == [] then [] else [UpperChar(w[0])] + Lower(w[1..])
  }

  /** The emotion whose label the capitalised word spells, if any. */
  function ParseEmotion(w: string): Option<Emotion> {
    FromLabel(Capitalize(w))
  }

  /** Lower-casing a capitalised word is lower-casing the word. */
  lemma LowerCapitalize(w: string)
    ensures Lower(Capitalize(w)) == Lower(w)
  {
    if w != [] {
      assert Lower(Capitalize(w)) == [LowerChar(UpperChar(w[0]))] + Lower(Lower(w[1..]));
      assert Lower(w) == [LowerChar(w[0])] + Lower(w[1..]);
    }
  }

  /** A label is a capital letter followed by lower-case letters. */
  predicate LabelShape(l: string) {
    |l| >= 1 && 'A' <= l[0] <= 'Z' && forall k | 1 <= k < |l| :: 'a' <= l[k] <= 'z'
  }

  /** Upper-casing a letter undoes lower-casing it. */
  lemma UpperOfLower(c: char, l: char)
    requires 'A' <= l <= 'Z'
    requires LowerChar(c) == LowerChar(l)
    ensures UpperChar(c) == l
  {
  }

  /** A word capitalises to a label exactly when it equals the label ignoring case. */
  lemma CapitalizeToLabel(w: string, l: string)
    requires LabelShape(l)
    ensures Capitalize(w) == l <==> Lower(w) == Lower(l)
  {
    LowerCapitalize(w);
    if Lower(w) == Lower(l) {
      assert |w| == |l|;
      assert LowerChar(w[0]) == Lower(w)[0] == Lower(l)[0] == LowerChar(l[0]);
      UpperOfLower(w[0], l[0]);
      var tail := Lower(w[1..]);
      forall k | 0 <= k < |tail|
        ensures tail[k] == l[1..][k]
      {
        assert tail[k] == LowerChar(w[k + 1]) == Lower(w)[k + 1] == Lower(l)[k + 1];
      }
      assert tail == l[1..];
      assert Capitalize(w) == [l[0]] + l[1..] == l;
    }
  }

  /** Every label is a capital letter followed by lower-case letters. */
  lemma LabelsHaveShape(e: Emotion)
    ensures LabelShape(Label(e))
  {
  }

  /** The tag's word is accepted as emotion `e` exactly when it spells `e`'s label in any case. */
  lemma ParseEmotionIgnoresCase(w: string, e: Emotion)
    ensures ParseEmotion(w) == Some(e) <==> Lower(w) == Lower(Label(e))
  {
    LabelsHaveShape(e);
    FromLabelInvertsLabel(Capitalize(w), e);
    CapitalizeToLabel(w, Label(e));
  }

  // ---------------------------------------------------------------------------
  // Markers
  // ---------------------------------------------------------------------------

  const DreamStart: string := "[DREAM_START]"
  const DreamEnd: string := "[DREAM_END]"
  const ManifestOpen: string := "[MANIFEST]"
  const ManifestClose: string := "[/MANIFEST]"

  /** A `[MANIFEST]...[/MANIFEST]` block: where it starts, what it encloses, where it ends. */
  datatype Block = Block(start: nat, payload: string, end: nat)

  /** A match of /\[MANIFEST\]([\s\S]*?)\[\/MANIFEST\]/ may span `s[a..c]`. */
  predicate BlockSpan(s: string, a: nat, c: nat) {
    a + 21 <= c <= |s| && OccursAt(s, ManifestOpen, a) && OccursAt(s, ManifestClose, c - 11)
  }

  /** `s.match(/\[MANIFEST\]([\s\S]*?)\[\/MANIFEST\]/)`: the first opening, then the first closing after it. */
  function FirstBlock(s: string): (r: Option<Block>)
    ensures r.Some? ==> BlockSpan(s, r.value.start, r.value.end)
    ensures r.Some? ==> r.value.payload == s[r.value.start + 10..r.value.end - 11]
  {
    match IndexOf(s, ManifestOpen)
    case None => None
    case Some(i) =>
      match IndexFrom(s, ManifestClose, i + 10)
      case None => None
      case Some(j) => Some(Block(i, s[i + 10..j], j + 11))
  }

  /**
   * The block found is the regular expression's match: it exists exactly when some span
   * matches, no match starts earlier, and among matches starting there it is the shortest
   * (the lazy `*?`).
   */
  lemma FirstBlockIsLeftmostLazyMatch(s: string)
    ensures FirstBlock(s).Some? <==> exists a: nat, c: nat :: BlockSpan(s, a, c)
    ensures FirstBlock(s).Some? ==> forall a: nat, c: nat | BlockSpan(s, a, c) ::
              FirstBlock(s).value.start < a
              || (FirstBlock(s).value.start == a && FirstBlock(s).value.end <= c)
  {
    IncludesSpec(s, ManifestOpen);
    match IndexOf(s, ManifestOpen)
    case None =>
    case Some(i) =>
      var j := IndexFrom(s, ManifestClose, i + 10);
      if j.None? {
        forall a: nat, c: nat
          ensures !BlockSpan(s, a, c)
        {
          if OccursAt(s, ManifestOpen, a) && a + 21 <= c {
            assert i <= a;
            assert !OccursAt(s, ManifestClose, c - 11);
          }
        }
      } else {
        assert BlockSpan(s, i, j.value + 11);
      }
  }

  /** A string is the concatenation of its pieces between four cut points. */
  lemma Pieces(s: string, i: nat, j: nat, k: nat, l: nat)
    requires i <= j <= k <= l <= |s|
    ensures s == s[..i] + s[i..j] + s[j..k] + s[k..l] + s[l..]
  {
  }

  /** Removing the block leaves the text before it and the text after it. */
  lemma BlockSplitsText(s: string)
    requires FirstBlock(s).Some?
    ensures var b := FirstBlock(s).value;
      s == s[..b.start] + ManifestOpen + b.payload + ManifestClose + s[b.end..]
  {
    var b := FirstBlock(s).value;
    assert BlockSpan(s, b.start, b.end);
    Pieces(s, b.start, b.start + 10, b.end - 11, b.end);
  }

  // ---------------------------------------------------------------------------
  // Reading a reply
  // ---------------------------------------------------------------------------

  /** Which copy of the reading code runs: after a user message or after a spark. */
  datatype Turn = UserTurn | SparkTurn

  /** What the reply asks of the session, besides an emotion change. */
  datatype Action =
    | EnterDream(content: string)
    | LeaveDream(content: string)
    | Manifest(made: Option<Decoded>, residual: string)
    | Say(text: string)

  /** The directive a reply yields: the accepted emotion, if any, and one action. */
  datatype Reading = Reading(emotion: Option<Emotion>, action: Action)

  /** The reply with its emotion tags cut out and trimmed; untouched when it has no tag. */
  function Cleaned(s: string): string {
    match FirstTag(s)
    case None => s
    case Some(_) => Trim(StripTags(s))
  }

  /** The emotion the first tag names, when the whitelist accepts it. */
  function EmotionOf(s: string): Option<Emotion> {
    match FirstTag(s)
    case None => None
    case Some(f) => ParseEmotion(f.tag.word)
  }

  /** The manifest branch: cut the first block out, decode a non-empty payload. */
  function ReadManifest(c: string, decode: string -> Option<Decoded>): Action {
    match FirstBlock(c)
    case None => Manifest(None, Trim(c))
    case Some(b) =>
      Manifest(if b.payload == "" then None else decode(b.payload), Trim(c[..b.start] + c[b.end..]))
  }

  /**
   * The reading of one reply, the branches tried in the source's order: dream start,
   * dream end (user turns only), manifest, plain text. `decode` stands for `JSON.parse`,
   * `None` when it throws.
   */
  function Interpret(turn: Turn, s: string, decode: string -> Option<Decoded>): Reading {
    var c := Cleaned(s);
    var action :=
      if Includes(c, DreamStart) then EnterDream(Trim(RemoveFirst(RemoveFirst(c, DreamStart), DreamEnd)))
      else if turn == UserTurn && Includes(c, DreamEnd) then LeaveDream(Trim(RemoveFirst(c, DreamEnd)))
      else if Includes(c, ManifestOpen) then ReadManifest(c, decode)
      else Say(if turn == UserTurn && c == "" then "..." else c);
    Reading(EmotionOf(s), action)
  }

  // ---------------------------------------------------------------------------
  // Properties of the reading
  // ---------------------------------------------------------------------------

  /**
   * Only the first tag decides the emotion: the reading names `e` exactly when the first
   * tag's word spells `e`'s label in some case, and names none when there is no tag.
   */
  lemma EmotionFromFirstTag(turn: Turn, s: string, decode: string -> Option<Decoded>, e: Emotion)
    ensures FirstTag(s).None? ==> Interpret(turn, s, decode).emotion.None?
    ensures FirstTag(s).Some? ==>
              (Interpret(turn, s, decode).emotion == Some(e)
               <==> Lower(FirstTag(s).value.tag.word) == Lower(Label(e)))
  {
    if FirstTag(s).Some? {
      ParseEmotionIgnoresCase(FirstTag(s).value.tag.word, e);
    }
  }

  /** Once a tag is present the tags the scan finds are removed, valid or not, and the text is trimmed. */
  lemma TagsRemovedWhenPresent(s: string)
    requires !TagFree(s)
    ensures Cleaned(s) == Trim(StripTags(s))
    ensures |Cleaned(s)| < |s|
  {
    StripTagsShrinks(s);
  }

  /** A dream start wins over everything else, including a manifest block in the same reply. */
  lemma DreamStartFirst(turn: Turn, s: string, decode: string -> Option<Decoded>)
    requires Includes(Cleaned(s), DreamStart)
    ensures Interpret(turn, s, decode).action.EnterDream?
    ensures Trimmed(Interpret(turn, s, decode).action.content)
  {
  }

  /** A spark never reads a wake-up, whatever the reply says. */
  lemma SparkNeverLeavesDream(s: string, decode: string -> Option<Decoded>)
    ensures !Interpret(SparkTurn, s, decode).action.LeaveDream?
  {
  }

  /**
   * A reply with no tag and no marker is shown exactly as received; after a user message
   * the empty reply becomes "...", after a spark it stays empty.
   */
  lemma PlainReplyVerbatim(turn: Turn, s: string, decode: string -> Option<Decoded>)
    requires TagFree(s)
    requires !Includes(s, DreamStart) && !Includes(s, DreamEnd) && !Includes(s, ManifestOpen)
    ensures Interpret(turn, s, decode) ==
              Reading(None, Say(if turn == UserTurn && s == "" then "..." else s))
  {
  }

  /** The payload reaches the decoder only when a closed block encloses a non-empty payload. */
  lemma ManifestDecodesOnlyPayload(turn: Turn, s: string, decode: string -> Option<Decoded>)
    requires Interpret(turn, s, decode).action.Manifest?
    ensures var c := Cleaned(s); var a := Interpret(turn, s, decode).action;
      && Includes(c, ManifestOpen)
      && (a.made.Some? ==> FirstBlock(c).Some? && FirstBlock(c).value.payload != ""
                           && a.made == decode(FirstBlock(c).value.payload))
      && (FirstBlock(c).Some? && FirstBlock(c).value.payload != "" ==>
            a.made == decode(FirstBlock(c).value.payload))
  {
  }

  /**
   * A dream framed by both markers, with nothing else marked inside, is read as that dream
   * and the text shown is the dream itself.
   */
  lemma DreamFrame(turn: Turn, t: string, decode: string -> Option<Decoded>)
    requires Trimmed(t)
    requires TagFree(DreamStart + t + DreamEnd)
    requires !Includes(t, DreamStart) && !Includes(t, DreamEnd)
    ensures Interpret(turn, DreamStart + t + DreamEnd, decode) == Reading(None, EnterDream(t))
  {
    var s := DreamStart + t + DreamEnd;
    assert Cleaned(s) == s;
    DreamFrameContent(t);
    assert Includes(s, DreamStart);
  }

  /** Removing the framing markers from a framed dream leaves the dream. */
  lemma DreamFrameContent(t: string)
    requires Trimmed(t)
    requires !Includes(t, DreamEnd)
    ensures IndexOf(DreamStart + t + DreamEnd, DreamStart) == Some(0)
    ensures Trim(RemoveFirst(RemoveFirst(DreamStart + t + DreamEnd, DreamStart), DreamEnd)) == t
  {
    var s := DreamStart + t + DreamEnd;
    assert s == DreamStart + (t + DreamEnd);
    StripLeadingMarker(t + DreamEnd);
    assert RemoveFirst(s, DreamStart) == t + DreamEnd;
    StripTrailingMarker(t);
    assert RemoveFirst(RemoveFirst(s, DreamStart), DreamEnd) == t;
  }

  /** The opening marker at the front is the first one, and removing it leaves the rest. */
  lemma StripLeadingMarker(w: string)
    ensures IndexOf(DreamStart + w, DreamStart) == Some(0)
    ensures RemoveFirst(DreamStart + w, DreamStart) == w
  {
    var s := DreamStart + w;
    assert s[0..|DreamStart|] == DreamStart;
    assert OccursAt(s, DreamStart, 0);
    var u := RemoveFirst(s, DreamStart);
    assert |u| + |DreamStart| == |s|;
    assert u[..0] + DreamStart + u[0..] == s;
    assert u == s[|DreamStart|..];
  }

  /** A closing marker appended to text without one is the first, and removing it leaves the text. */
  lemma StripTrailingMarker(t: string)
    requires !Includes(t, DreamEnd)
    ensures RemoveFirst(t + DreamEnd, DreamEnd) == t
  {
    assert Unbordered(DreamEnd);
    FirstOccurrenceAtEnd(t, DreamEnd);
    var u := t + DreamEnd;
    var v := RemoveFirst(u, DreamEnd);
    assert v[..|t|] + DreamEnd + v[|t|..] == u;
    assert |v| == |t|;
    assert v == t;
  }

  /** No character of `p` after the first repeats the first: `p` cannot overlap itself. */
  predicate Unbordered(p: string) {
    |p| >= 1 && forall d | 0 < d < |p| :: p[d] != p[0]
  }

  /** When `p` does not occur in `t`, the first `p` in `t + p` is the appended one. */
  lemma FirstOccurrenceAtEnd(t: string, p: string)
    requires Unbordered(p)
    requires !Includes(t, p)
    ensures IndexOf(t + p, p) == Some(|t|)
  {
    var s := t + p;
    assert s[|t|..|t| + |p|] == p;
    assert OccursAt(s, p, |t|);
    forall k | 0 <= k < |t|
      ensures !OccursAt(s, p, k)
    {
      if k + |p| <= |t| {
        assert s[k..k + |p|] == t[k..k + |p|];
        assert !OccursAt(t, p, k);
      } else {
        var d := |t| - k;
        assert 0 < d < |p|;
        assert s[k + d] == p[0];
        assert p[d] != p[0];
      }
    }
  }
}
