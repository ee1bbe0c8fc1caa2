/** Stage three of the analysis: the risk tier, the grouping of records by
    category in order of first appearance, and the narrative report. */
module Report {
  import opened TextUtil
  import opened Patterns

  datatype Tier = Low | Moderate | High

  /** The risk tier of a score (lines 247-257): two fixed thresholds. */
  function TierOf(score: int): Tier
  {
    if score >= 25 then High else if score >= 12 then Moderate else Low
  }

  function TierName(t: Tier): string
  {
    match t
    case Low => "Low"
    case Moderate => "Moderate"
    case High => "High"
  }

  function TierRank(t: Tier): nat
  {
    match t
    case Low => 0
    case Moderate => 1
    case High => 2
  }

  /** The tiers are bounded below by 25 and 12, both inclusive, and a higher
      score never gives a lower tier. */
  lemma TierThresholds(score: int, other: int)
    ensures TierOf(score) == High <==> 25 <= score
    ensures TierOf(score) == Moderate <==> 12 <= score < 25
    ensures TierOf(score) == Low <==> score < 12
    ensures score <= other ==> TierRank(TierOf(score)) <= TierRank(TierOf(other))
    ensures TierOf(24) == Moderate && TierOf(25) == High && TierOf(11) == Low && TierOf(12) == Moderate
  {
  }

  // Grouping (lines 281-288)

  /** Category identifiers in order of first appearance. This is the key
      order of the `tacticsByCategory` object for plain keys (see `PlainKey`);
      integer-like keys would be listed first by `Object.entries`. */
  function GroupKeys(ts: seq<Tactic>): seq<string>
  {
    if ts == [] then []
    else
      var keys := GroupKeys(ts[..|ts| - 1]);
      var c := ts[|ts| - 1].category;
      if c in keys then keys else keys + [c]
  }

  /** The examples grouped under `key`: the matches of every record of that
      category, concatenated in record order. */
  function GroupOf(ts: seq<Tactic>, key: string): seq<string>
  {
    if ts == [] then []
    else GroupOf(ts[..|ts| - 1], key) + (if ts[|ts| - 1].category == key then ts[|ts| - 1].matches else [])
  }

  ghost predicate HasCategory(ts: seq<Tactic>, key: string)
  {
    exists j :: 0 <= j < |ts| && ts[j].category == key
  }

  /** The position of the first record of category `key`. */
  function FirstIndex(ts: seq<Tactic>, key: string): (i: nat)
    requires HasCategory(ts, key)
    ensures i < |ts| && ts[i].category == key
    ensures forall j :: 0 <= j < i ==> ts[j].category != key
  {
    if ts[0].category == key then 0
    else
      assert HasCategory(ts[1..], key) by {
        var j :| 0 <= j < |ts| && ts[j].category == key;
        assert ts[1..][j - 1] == ts[j];
      }
      1 + FirstIndex(ts[1..], key)
  }

  /** The `forEach` of lines 283-288, building the dictionary in place; `keys`
      is its key order and `groups` its contents. */
  method GroupByCategory(tactics: seq<Tactic>) returns (keys: seq<string>, groups: map<string, seq<string>>)
    ensures keys == GroupKeys(tactics)
    ensures forall k :: k in groups <==> k in keys
    ensures forall k :: k in groups ==> groups[k] == GroupOf(tactics, k)
  {
    keys, groups := [], map[];
    for i := 0 to |tactics|
      invariant keys == GroupKeys(tactics[..i])
      invariant forall k :: k in groups <==> k in keys
      invariant forall k :: k in groups ==> groups[k] == GroupOf(tactics[..i], k)
    {
      var tactic := tactics[i];
      assert tactics[..i + 1][..i] == tactics[..i];
      if tactic.category !in groups {
        GroupKeysAreCategories(tactics[..i]);
        GroupOfAbsent(tactics[..i], tactic.category);
        keys := keys + [tactic.category];
        groups := groups[tactic.category := []];
      }
      groups := groups[tactic.category := groups[tactic.category] + tactic.matches];
    }
    assert tactics[..|tactics|] == tactics;
  }

  /** The keys are exactly the categories that occur, each listed once. */
  lemma {:induction false} GroupKeysAreCategories(ts: seq<Tactic>)
    ensures forall k :: k in GroupKeys(ts) <==> HasCategory(ts, k)
    ensures forall a, b :: 0 <= a < b < |GroupKeys(ts)| ==> GroupKeys(ts)[a] != GroupKeys(ts)[b]
  {
    if ts != [] {
      var prefix := ts[..|ts| - 1];
      GroupKeysAreCategories(prefix);
      forall k ensures HasCategory(ts, k) <==> HasCategory(prefix, k) || ts[|ts| - 1].category == k {
        if HasCategory(prefix, k) {
          var j :| 0 <= j < |prefix| && prefix[j].category == k;
          assert ts[j] == prefix[j];
        }
        if HasCategory(ts, k) && ts[|ts| - 1].category != k {
          var j :| 0 <= j < |ts| && ts[j].category == k;
          assert prefix[j] == ts[j];
        }
      }
    }
  }

  /** A category that no record has gets no examples. */
  lemma {:induction false} GroupOfAbsent(ts: seq<Tactic>, key: string)
    requires !HasCategory(ts, key)
    ensures GroupOf(ts, key) == []
  {
    if ts != [] {
      var prefix := ts[..|ts| - 1];
      assert !HasCategory(prefix, key) by {
        forall j | 0 <= j < |prefix| ensures prefix[j].category != key {
          assert ts[j] == prefix[j];
        }
      }
      GroupOfAbsent(prefix, key);
    }
  }

  /** Groups appear in the order in which their categories first appear among
      the records. */
  lemma {:induction false} GroupKeysInFirstAppearanceOrder(ts: seq<Tactic>)
    ensures forall a :: 0 <= a < |GroupKeys(ts)| ==> HasCategory(ts, GroupKeys(ts)[a])
    ensures forall a, b :: 0 <= a < b < |GroupKeys(ts)| ==>
      FirstIndex(ts, GroupKeys(ts)[a]) < FirstIndex(ts, GroupKeys(ts)[b])
  {
    GroupKeysAreCategories(ts);
    if ts != [] {
      var prefix := ts[..|ts| - 1];
      var c := ts[|ts| - 1].category;
      var keys := GroupKeys(prefix);
      GroupKeysInFirstAppearanceOrder(prefix);
      GroupKeysAreCategories(prefix);
      forall k | HasCategory(prefix, k)
        ensures HasCategory(ts, k) && FirstIndex(ts, k) == FirstIndex(prefix, k)
      {
        assert forall j :: 0 <= j < |prefix| ==> prefix[j] == ts[j];
        var i1 := FirstIndex(prefix, k);
        assert ts[i1].category == k;
      }
      if c !in keys {
        assert FirstIndex(ts, c) == |ts| - 1 by {
          forall j | 0 <= j < |prefix| ensures ts[j].category != c {
            assert prefix[j] == ts[j];
          }
        }
      }
    }
  }

  /** Number of examples across all records. */
  function TotalMatches(ts: seq<Tactic>): nat
  {
    if ts == [] then 0 else TotalMatches(ts[..|ts| - 1]) + |ts[|ts| - 1].matches|
  }

  /** Number of examples across the groups named by `keys`. */
  function GroupedCount(keys: seq<string>, ts: seq<Tactic>): nat
  {
    if keys == [] then 0 else GroupedCount(keys[..|keys| - 1], ts) + |GroupOf(ts, keys[|keys| - 1])|
  }

  lemma {:induction false} GroupedCountStep(keys: seq<string>, prefix: seq<Tactic>, t: Tactic)
    requires forall a, b :: 0 <= a < b < |keys| ==> keys[a] != keys[b]
    ensures GroupedCount(keys, prefix + [t]) ==
      GroupedCount(keys, prefix) + (if t.category in keys then |t.matches| else 0)
  {
    if keys != [] {
      var init, last := keys[..|keys| - 1], keys[|keys| - 1];
      GroupedCountStep(init, prefix, t);
      assert (prefix + [t])[..|prefix|] == prefix;
      assert t.category in keys <==> t.category in init || t.category == last;
      assert last !in init by {
        forall a | 0 <= a < |init| ensures init[a] != last {
          assert init[a] == keys[a];
        }
      }
    }
  }

  /** Grouping loses no example and duplicates none: the groups together hold
      as many examples as the records. */
  lemma {:induction false} GroupingKeepsEveryExample(ts: seq<Tactic>)
    ensures GroupedCount(GroupKeys(ts), ts) == TotalMatches(ts)
  {
    if ts != [] {
      var prefix, t := ts[..|ts| - 1], ts[|ts| - 1];
      var keys := GroupKeys(prefix);
      assert ts == prefix + [t];
      GroupingKeepsEveryExample(prefix);
      GroupKeysAreCategories(prefix);
      GroupedCountStep(keys, prefix, t);
      if t.category !in keys {
        var keys' := keys + [t.category];
        assert keys'[..|keys|] == keys;
        GroupOfAbsent(prefix, t.category);
      }
    }
  }

  // Rendering (lines 290-312)
  // The texts below are written as concatenations of short literals: each
  // long literal costs the verifier far more than its pieces do.

  datatype Option<T> = None | Some(value: T)

  /** `categoryDescriptions` (lines 291-302): the description of each
      category that has one. */
  function DescriptionOf(category: string): Option<string>
  {
    if category == "memoryDenial" then
      Some("\U{1F9E0} Memory Denial " + "- Claiming events " + "didn't happen or " + "you remember wrong")
    else if category == "emotionalInvalidation" then
      Some("\U{1F494} Emotional " + "Invalidation - " + "Dismissing your " + "feelings as excessive")
    else if category == "realityDistortion" then
      Some("\U{1F300} Reality Distortion " + "- Making you question " + "your perception")
    else if category == "minimizing" then
      Some("\U{1F4C9} Minimizing " + "- Downplaying the " + "significance " + "of harmful behavior")
    else if category == "blameShifting" then
      Some("\U{1F449} Blame Shifting " + "- Making you " + "responsible for " + "their actions")
    else if category == "deflection" then
      Some("\U{1F504} Deflection - Turning " + "focus to your flaws " + "instead")
    else if category == "controlAndIsolation" then
      Some("\U{1F512} Control & Isolation " + "- Limiting your " + "autonomy and " + "relationships")
    else if category == "threatAndIntimidation" then
      Some("\U{26A1} Threats & " + "Intimidation - " + "Using fear to " + "control behavior")
    else if category == "dismissalPattern" then
      Some("\U{1F6AB} Dismissal Pattern " + "- Consistently ignoring " + "your concerns")
    else if category == "DARVO" then
      Some("\U{1F504} DARVO - Deny, " + "Attack, and Reverse " + "Victim/Offender " + "roles")
    else None
  }

  /** The heading of a category in the report: its description, or the
      generic `<category> patterns` when it has none (line 305). */
  function Describe(category: string): string
  {
    match DescriptionOf(category)
    case Some(d) => d
    case None => category + " patterns"
  }

  /** Every category of the table has a description of its own. */
  lemma TableCategoriesDescribed()
    ensures forall i :: 0 <= i < |Table| ==> DescriptionOf(Table[i].id).Some?
  {
    TableIds();
  }

  /** Property names every plain object inherits from `Object.prototype`. */
  const PrototypeNames: seq<string> :=
    ["constructor", "__proto__", "toString", "toLocaleString", "valueOf",
     "hasOwnProperty", "isPrototypeOf", "propertyIsEnumerable",
     "__defineGetter__", "__defineSetter__", "__lookupGetter__", "__lookupSetter__"]

  /** A key the grouping object treats like any other: it is not inherited
      from `Object.prototype` (line 284 would find it already present) and is
      not integer-like (`Object.entries` at line 304 would list it first). */
  predicate PlainKey(k: string)
  {
    |k| > 0 && !('0' <= k[0] <= '9') && k !in PrototypeNames
  }

  /** The categories of the table are plain keys... */
  lemma TableKeysArePlain()
    ensures forall i :: 0 <= i < |Table| ==> PlainKey(Table[i].id)
  {
    TableIds();
  }

  /** ... and so are the two contextual categories. */
  lemma ContextKeysArePlain()
    ensures PlainKey("dismissalPattern") && PlainKey("DARVO")
  {
  }

  /** One bullet of the report (lines 306-311): the heading, then the examples
      literally when there are at most three, else only their number. */
  function Bullet(heading: string, examples: seq<string>): string
  {
    "\n\U{2022} " + heading
    + if |examples| <= 3 then "\n  Examples: \"" + Join(examples, "\", \"") + "\""
      else "\n  Found " + NatToString(|examples|) + " instances"
  }

  /** The bullet of a category group. */
  function RenderGroup(category: string, examples: seq<string>): string
  {
    Bullet(Describe(category), examples)
  }

  /** The bullets for `keys`, in order. */
  function RenderKeys(keys: seq<string>, ts: seq<Tactic>): string
  {
    if keys == [] then ""
    else RenderKeys(keys[..|keys| - 1], ts) + RenderGroup(keys[|keys| - 1], GroupOf(ts, keys[|keys| - 1]))
  }

  lemma BulletShowsLabel(heading: string, examples: seq<string>)
    ensures IsSubstring("\n\U{2022} " + heading, Bullet(heading, examples))
  {
    var detail := if |examples| <= 3 then "\n  Examples: \"" + Join(examples, "\", \"") + "\""
      else "\n  Found " + NatToString(|examples|) + " instances";
    OccursAsPrefix("\n\U{2022} " + heading, detail);
  }

  lemma BulletShowsExamples(heading: string, examples: seq<string>)
    requires |examples| <= 3
    ensures forall j :: 0 <= j < |examples| ==> IsSubstring(examples[j], Bullet(heading, examples))
  {
    var joined := Join(examples, "\", \"");
    forall j | 0 <= j < |examples|
      ensures IsSubstring(examples[j], Bullet(heading, examples))
    {
      JoinShowsEveryPart(examples, "\", \"", j);
      SubstringOfAppend(examples[j], joined, "\n  Examples: \"", "\"");
      SubstringOfRight(examples[j], "\n\U{2022} " + heading, "\n  Examples: \"" + joined + "\"");
    }
  }

  lemma BulletShowsCount(heading: string, examples: seq<string>)
    requires |examples| > 3
    ensures IsSubstring("Found " + NatToString(|examples|) + " instances", Bullet(heading, examples))
  {
    var n := NatToString(|examples|);
    var line := "Found " + n + " instances";
    assert "\n  Found " == "\n  " + "Found ";
    AppendAssoc("\n  ", "Found ", n);
    AppendAssoc("\n  ", "Found " + n, " instances");
    OccursAsSuffix("\n  ", line);
    assert IsSubstring(line, "\n  Found " + n + " instances");
    SubstringOfRight(line, "\n\U{2022} " + heading, "\n  Found " + n + " instances");
  }

  /** A bullet names its category's label; it shows every example when there
      are at most three, and otherwise the count, which reads back exactly. */
  lemma RenderGroupShowsExamplesOrCount(category: string, examples: seq<string>)
    ensures IsSubstring("\n\U{2022} " + Describe(category), RenderGroup(category, examples))
    ensures |examples| <= 3 ==>
      forall j :: 0 <= j < |examples| ==> IsSubstring(examples[j], RenderGroup(category, examples))
    ensures |examples| > 3 ==>
      IsSubstring("Found " + NatToString(|examples|) + " instances", RenderGroup(category, examples))
      && ParseNat(NatToString(|examples|)) == |examples|
  {
    BulletShowsLabel(Describe(category), examples);
    if |examples| <= 3 {
      BulletShowsExamples(Describe(category), examples);
    } else {
      BulletShowsCount(Describe(category), examples);
      ParseNatToString(|examples|);
    }
  }

  lemma {:induction false} RenderKeysShowsEach(keys: seq<string>, ts: seq<Tactic>, m: nat)
    requires m < |keys|
    ensures IsSubstring(RenderGroup(keys[m], GroupOf(ts, keys[m])), RenderKeys(keys, ts))
  {
    var init := keys[..|keys| - 1];
    var g := RenderGroup(keys[|keys| - 1], GroupOf(ts, keys[|keys| - 1]));
    var before := RenderKeys(init, ts);
    if m == |keys| - 1 {
      OccursAsSuffix(before, g);
    } else {
      assert keys[m] == init[m];
      RenderKeysShowsEach(init, ts, m);
      SubstringOfLeft(RenderGroup(keys[m], GroupOf(ts, keys[m])), before, g);
    }
  }

  // Report text (lines 259-339)
  // The texts below are written as concatenations of short literals: each
  // long literal costs the verifier far more than its pieces do.

  /** The whole report of a zero score (lines 259-269). */
  function LookingGoodReport(score: int): string
  {
    "**\U{2705} " +
    ("Looking Good!**\n\n" + "GASLIGHTING ANALYSIS " + "REPORT\n" +
     "====================" + "====================\n" +
     "Risk Level: Low " + "(Score: " + IntToString(score) + ")\n\n" +
     "No obvious gaslighting " + "patterns detected " + "in this text.\n\n" +
     "Note: This is a basic " + "analysis tool. " + "Trust your instincts " + "- if something " + "feels wrong " +
     "in your interactions, " + "consider seeking " + "support from a mental " + "health professional.")
  }

  /** The opening of a detailed report (lines 272-279): the warning sign and
      the tier name, then the rest of the header. */
  function Header(riskLevel: string, score: int): string
  {
    "**\U{26A0}\U{FE0F} " + riskLevel + HeaderRest(riskLevel, score)
  }

  function HeaderRest(riskLevel: string, score: int): string
  {
    " Risk Detected**\n\n" + "GASLIGHTING ANALYSIS " + "REPORT\n" +
    "====================" + "====================\n" +
    "Risk Level: " + riskLevel + " (Score: " + IntToString(score) + ")\n\n" +
    "DETECTED MANIPULATION " + "TACTICS:\n"
  }

  /** The recommendation block of each tier (lines 318-335). */
  function Advice(t: Tier): string
  {
    match t
    case High =>
      "\U{1F6A8} HIGH CONCERN: " + "This conversation " + "shows multiple serious " + "manipulation tactics. " + "Consider:\n" +
      "\U{2022} Document these " + "interactions\n" +
      "\U{2022} Reach out to a " + "trusted friend, " + "family member, or " + "counselor\n" +
      "\U{2022} Contact domestic " + "violence resources " + "if you feel unsafe\n" +
      "\U{2022} Trust your instincts " + "- if it feels wrong, " + "it probably is"
    case Moderate =>
      "\U{26A0}\U{FE0F} MODERATE CONCERN: " + "Some concerning " + "patterns detected. " + "Consider:\n" +
      "\U{2022} Pay attention " + "to how these " + "interactions make " + "you feel\n" +
      "\U{2022} Talk to someone " + "you trust about " + "these conversations\n" +
      "\U{2022} Set boundaries " + "about respectful " + "communication\n" +
      "\U{2022} Trust your gut " + "feelings about the " + "relationship"
    case Low =>
      "\U{2705} LOWER CONCERN: " + "Some minor patterns " + "detected, but may " + "not indicate systematic " + "gaslighting.\n" +
      "\U{2022} Monitor if these " + "patterns become " + "more frequent\n" +
      "\U{2022} Communicate your " + "boundaries clearly\n" +
      "\U{2022} Trust your feelings " + "if something seems " + "off"
  }

  /** Everything after the bullets (lines 314-339): the recommendations
      heading, the advice, and the safety footer. */
  function Closing(advice: string): string
  {
    "\n\nRECOMMendations:\n" + advice + Footer
  }

  const Footer: string :=
    "\n\nREMEMBER: You " + "deserve to be heard, " + "believed, and treated " + "with respect. " +
    "Your feelings and " + "perceptions are " + "valid.\n\n" +
    "If you're in immediate " + "danger, contact " + "emergency services " + "or the " +
    "National Domestic " + "Violence Hotline: " + "1-800-799-7233"

  /** The report for a score and its records: the fixed report on a zero
      score; otherwise the header naming the tier, one bullet per category in
      order of first appearance, and the advice of that tier. */
  function ReportText(score: int, ts: seq<Tactic>): string
  {
    if score == 0 then LookingGoodReport(score)
    else
      var t := TierOf(score);
      Header(TierName(t), score) + RenderKeys(GroupKeys(ts), ts) + Closing(Advice(t))
  }

  /** The zero-score report opens with a check mark... */
  lemma LookingGoodMark(score: int)
    ensures |LookingGoodReport(score)| > 2 && LookingGoodReport(score)[2] == '\U{2705}'
  {
  }

  /** ... and every other report with a warning sign. */
  lemma HeaderMark(riskLevel: string, score: int)
    ensures |Header(riskLevel, score)| > 2 && Header(riskLevel, score)[2] == '\U{26A0}'
  {
  }

  /** The third character of every report is its mark: a check mark on a
      zero score, a warning sign otherwise. */
  lemma ReportMark(score: int, ts: seq<Tactic>)
    ensures |ReportText(score, ts)| > 2
    ensures ReportText(score, ts)[2] == if score == 0 then '\U{2705}' else '\U{26A0}'
  {
    if score == 0 {
      LookingGoodMark(score);
    } else {
      var t := TierOf(score);
      var h := Header(TierName(t), score);
      HeaderMark(TierName(t), score);
      var r := h + RenderKeys(GroupKeys(ts), ts) + Closing(Advice(t));
      assert ReportText(score, ts) == r;
      assert r[2] == h[2];
    }
  }

  /** The "Looking Good" report is given exactly when the score is zero. */
  lemma LookingGoodIffZeroScore(score: int, ts: seq<Tactic>)
    ensures ReportText(score, ts) == LookingGoodReport(score) <==> score == 0
  {
    ReportMark(score, ts);
    LookingGoodMark(score);
  }

  /** The header and the recommendations of a detailed report are chosen by
      the same thresholds: the report names the tier of its score after the
      warning sign and carries that tier's advice. */
  lemma TierAndAdviceAgree(score: int, ts: seq<Tactic>)
    requires score != 0
    ensures IsSubstring("**\U{26A0}\U{FE0F} " + TierName(TierOf(score)), ReportText(score, ts))
    ensures IsSubstring(Advice(TierOf(score)), ReportText(score, ts))
  {
    var t := TierOf(score);
    var opening := "**\U{26A0}\U{FE0F} " + TierName(t);
    var h := Header(TierName(t), score);
    var body := RenderKeys(GroupKeys(ts), ts);
    var c := Closing(Advice(t));
    assert ReportText(score, ts) == h + body + c;
    OccursAsPrefix(opening, HeaderRest(TierName(t), score));
    SubstringOfLeft(opening, h, body);
    SubstringOfLeft(opening, h + body, c);
    OccursAsSuffix("\n\nRECOMMendations:\n", Advice(t));
    SubstringOfLeft(Advice(t), "\n\nRECOMMendations:\n" + Advice(t), Footer);
    SubstringOfRight(Advice(t), h + body, c);
  }

  /** A non-zero report lists every category that occurs among the records. */
  lemma ReportListsEveryCategory(score: int, ts: seq<Tactic>, j: nat)
    requires score != 0 && j < |ts|
    ensures IsSubstring("\n\U{2022} " + Describe(ts[j].category), ReportText(score, ts))
  {
    var c := ts[j].category;
    var keys := GroupKeys(ts);
    GroupKeysAreCategories(ts);
    assert HasCategory(ts, c);
    var m :| 0 <= m < |keys| && keys[m] == c;
    var bullet := RenderGroup(c, GroupOf(ts, c));
    var body := RenderKeys(keys, ts);
    var bulletHead := "\n\U{2022} " + Describe(c);
    RenderKeysShowsEach(keys, ts, m);
    BulletShowsLabel(Describe(c), GroupOf(ts, c));
    SubstringTransitive(bulletHead, bullet, body);
    var t := TierOf(score);
    SubstringOfAppend(bulletHead, body, Header(TierName(t), score), Closing(Advice(t)));
  }

  /** One turn of the report loop: appending a category's bullet head and
      then its detail extends the rendering by that category's bullet. */
  lemma RenderKeysStep(head: string, keys: seq<string>, i: nat, ts: seq<Tactic>,
                       matches: seq<string>, bulletHead: string, detail: string)
    requires i < |keys| && matches == GroupOf(ts, keys[i])
    requires bulletHead == "\n\U{2022} " + Describe(keys[i])
    requires detail == if |matches| <= 3
      then "\n  Examples: \"" + Join(matches, "\", \"") + "\""
      else "\n  Found " + NatToString(|matches|) + " instances"
    ensures head + RenderKeys(keys[..i], ts) + bulletHead + detail == head + RenderKeys(keys[..i + 1], ts)
  {
    var before := RenderKeys(keys[..i], ts);
    var bullet := bulletHead + detail;
    assert bullet == RenderGroup(keys[i], matches);
    var next := keys[..i + 1];
    assert next[..i] == keys[..i] && next[i] == keys[i];
    assert RenderKeys(next, ts) == before + bullet;
    AppendAssoc(head + before, bulletHead, detail);
    AppendAssoc(head, before, bullet);
  }

  /** `generateAnalysisReport` (lines 246-342): the tier and the advice are
      chosen by two separate threshold tests, as in the source. */
  method GenerateAnalysisReport(score: int, detectedTactics: seq<Tactic>) returns (report: string)
    ensures report == ReportText(score, detectedTactics)
  {
    var riskLevel := "Low";
    if score >= 25 {
      riskLevel := "High";
    } else if score >= 12 {
      riskLevel := "Moderate";
    }

    if score == 0 {
      return LookingGoodReport(score);
    }

    ghost var tier := TierOf(score);
    assert riskLevel == TierName(tier);
    var head := Header(riskLevel, score);
    report := head;

    var keys, groups := GroupByCategory(detectedTactics);
    for i := 0 to |keys|
      invariant report == head + RenderKeys(keys[..i], detectedTactics)
    {
      var matches := groups[keys[i]];
      var description := Describe(keys[i]);
      var bulletHead := "\n\U{2022} " + description;
      report := report + bulletHead;
      var detail;
      if |matches| <= 3 {
        detail := "\n  Examples: \"" + Join(matches, "\", \"") + "\"";
      } else {
        detail := "\n  Found " + NatToString(|matches|) + " instances";
      }
      report := report + detail;
      RenderKeysStep(head, keys, i, detectedTactics, matches, bulletHead, detail);
    }
    assert keys[..|keys|] == keys;

    var adviceTier;
    if score >= 25 {
      adviceTier := High;
    } else if score >= 12 {
      adviceTier := Moderate;
    } else {
      adviceTier := Low;
    }
    assert adviceTier == tier;
    var advice := Advice(adviceTier);
    report := report + Closing(advice);
  }
}
