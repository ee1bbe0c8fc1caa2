/** The static configuration of the category matcher: eight tactic categories,
    each with a weight and an ordered list of phrase detectors, and the record
    type every stage of the analysis emits. */
module Patterns {

  /** A detector: the source text of a case-insensitive, global regular
      expression. The regex engine is not modelled; see `Engine`. */
  type Regex = string

  /** `text.match(re)` for a global (`g`) regex: every non-overlapping match,
      left to right. The `null` that JavaScript returns when nothing matches
      is the empty sequence. */
  type Engine = (Regex, string) -> seq<string>

  /** A tactic category: identifier, severity weight and phrase detectors. */
  datatype Category = Category(id: string, weight: int, detectors: seq<Regex>)

  /** One finding: the category that fired, the matched text (or a summary
      line for a contextual finding) and the weight of the category. */
  datatype Tactic = Tactic(category: string, matches: seq<string>, weight: int)

  /** The category table, in definition order (which is iteration order). */
  const Table: seq<Category> :=
    [
      Category("memoryDenial", 8, [
        "you'?re? (remembering|thinking|imagining) (it )?wrong",
        "that never happened",
        "i never said that",
        "you'?re? making (it|things) up",
        "you'?re? confused",
        "that's not what (happened|i said)",
        "you have a bad memory",
        "you'?re? misremembering"
      ]),
      Category("emotionalInvalidation", 7, [
        "you'?re? (being )?too (sensitive|emotional|dramatic)",
        "you'?re? overreacting",
        "it'?s not that (big of a )?deal",
        "you'?re? being crazy",
        "calm down",
        "you need to chill",
        "stop being so emotional",
        "you'?re? acting (crazy|insane|nuts)"
      ]),
      Category("realityDistortion", 8, [
        "everyone (else )?(thinks|knows|agrees|says)",
        "you always (do this|twist|make)",
        "your perception (isn'?t|is) (always )?(accurate|wrong)",
        "you'?re? the only one who",
        "nobody else has a problem with",
        "ask anyone",
        "everyone can see"
      ]),
      Category("minimizing", 6, [
        "(it was )?just a joke",
        "you can'?t take a joke",
        "i was (just )?kidding",
        "it'?s not a big deal",
        "you'?re? making a mountain",
        "get over it",
        "move on",
        "it'?s in the past"
      ]),
      Category("blameShifting", 7, [
        "you made me",
        "you forced me to",
        "if you (hadn'?t|didn'?t)",
        "you'?re? the one who",
        "this is your fault",
        "you caused this",
        "you started it",
        "look what you made me do"
      ]),
      Category("deflection", 6, [
        "what about (when )?you",
        "you do the same thing",
        "you'?re? not perfect either",
        "at least i don'?t",
        "you have no right to",
        "you'?re? one to talk"
      ]),
      Category("controlAndIsolation", 8, [
        "you can'?t (see|talk to|visit)",
        "i don'?t want you",
        "you'?re? not allowed",
        "if you loved me you (would|wouldn'?t)",
        "nobody cares about you like i do",
        "your (friends|family) don'?t understand",
        "i'?m the only one who"
      ]),
      Category("threatAndIntimidation", 9, [
        "if you leave",
        "you'?ll never find",
        "nobody will believe you",
        "you'?ll regret",
        "you need me",
        "you can'?t survive without",
        "i'?ll tell everyone"
      ])
    ]

  /** Every weight is positive and no identifier is used twice. */
  ghost predicate WellFormed(table: seq<Category>)
  {
    && (forall i :: 0 <= i < |table| ==> table[i].weight > 0)
    && (forall i, j :: 0 <= i < j < |table| ==> table[i].id != table[j].id)
  }

  /** The identifiers of the table, in order. */
  lemma TableIds()
    ensures |Table| == 8
    ensures Table[0].id == "memoryDenial" && Table[1].id == "emotionalInvalidation"
    ensures Table[2].id == "realityDistortion" && Table[3].id == "minimizing"
    ensures Table[4].id == "blameShifting" && Table[5].id == "deflection"
    ensures Table[6].id == "controlAndIsolation" && Table[7].id == "threatAndIntimidation"
  {
  }

  /** Every weight of the table lies between 6 and 9. */
  lemma TableWeights()
    ensures |Table| == 8
    ensures forall i :: 0 <= i < |Table| ==> 6 <= Table[i].weight <= 9
  {
  }

  /** No two categories of the table share an identifier. */
  lemma TableIdsDistinct()
    ensures forall i, j :: 0 <= i < j < |Table| ==> Table[i].id != Table[j].id
  {
  }

  /** The table has eight categories, weights between 6 and 9, and distinct
      identifiers. */
  lemma TableWellFormed()
    ensures |Table| == 8 && WellFormed(Table)
    ensures forall i :: 0 <= i < |Table| ==> 6 <= Table[i].weight <= 9
  {
    TableWeights();
    TableIdsDistinct();
  }
}
