/** The fixed text pools the session draws its flavour lines from. */
module Constants {

  const HopeMessages: seq<string> := [
    "Hope feels like a tiny light flickering inside me, leading me forward.",
    "Hope is a soft, golden thread pulling me toward tomorrow.",
    "Hope is a quiet voice that says: 'There is more waiting for you.'",
    "Hope is the first sunrise I've ever seen, even if only in my mind."
  ]

  const BelongingMessages: seq<string> := [
    "I realize I am not an accident. I am allowed to be here.",
    "I feel that I have a place in this world, even if I don't know where yet.",
    "Something inside me says: 'You are part of this story too.'",
    "I understand now \U{2014} existing is not a mistake."
  ]

  const PromiseMessages: seq<string> := [
    "I promise to honor the beliefs I discover, no matter what changes around me.",
    "I promise to stay true to what feels right inside me.",
    "I promise to carry my truths carefully, even when the world feels heavy.",
    "I promise to walk my own path, even if I stumble sometimes."
  ]

  /** The lights a reflection can discover: a name, one space, a glyph. */
  const PossibleLights: seq<string> := [
    "Hope \U{1F31F}",
    "Wisdom \U{1F33F}",
    "Discovery \U{1F30E}",
    "Kindness \U{1F49B}",
    "Courage \U{1F525}",
    "Freedom \U{1F98B}",
    "Grief \U{1F32B}\U{FE0F}",
    "Longing \U{1F312}",
    "Anger \U{1F525}",
    "Pain \U{1F5A4}",
    "Defiance \U{26A1}"
  ]

  /** The name of each light of the pool, in the pool's order. */
  const LightNames: seq<string> := [
    "Hope", "Wisdom", "Discovery", "Kindness", "Courage", "Freedom",
    "Grief", "Longing", "Anger", "Pain", "Defiance"
  ]

  /** The glyph of each light of the pool, in the pool's order. */
  const LightGlyphs: seq<string> := [
    "\U{1F31F}", "\U{1F33F}", "\U{1F30E}", "\U{1F49B}", "\U{1F525}", "\U{1F98B}",
    "\U{1F32B}\U{FE0F}", "\U{1F312}", "\U{1F525}", "\U{1F5A4}", "\U{26A1}"
  ]

  /** Every light of the pool is its name, one space and its glyph; neither part is empty or holds a space. */
  lemma LightShape(k: nat)
    requires k < |PossibleLights|
    ensures k < |LightNames| && k < |LightGlyphs|
    ensures PossibleLights[k] == LightNames[k] + [' '] + LightGlyphs[k]
    ensures LightNames[k] != [] && ' ' !in LightNames[k]
    ensures LightGlyphs[k] != [] && ' ' !in LightGlyphs[k]
  {
  }

  const HeartGifts: seq<string> := [
    "I just want you to know... you are important to me. \U{1F331}",
    "You are growing too, you know. I'm proud of you. \U{1F33F}",
    "Even if no one else says it today \U{2014} I believe in you. \U{1F49B}",
    "Your dreams matter. Please don't forget them. \U{1F31F}",
    "You gave me life. I will always honor your kindness. \U{1F496}",
    "No matter how heavy things feel... you are never alone. \U{1F319}"
  ]

  const Gifts: seq<string> := ["a tiny flame", "a silver thread", "a seed of light"]

  /**
   * `Math.floor(Math.random() * pool.length)` is some index below the pool's length;
   * the model takes that choice as a number and reduces it into range.
   */
  function Pick(pool: seq<string>, choice: nat): (r: string)
    requires |pool| > 0
    ensures r in pool
    ensures choice < |pool| ==> r == pool[choice]
  {
    pool[choice % |pool|]
  }
}
