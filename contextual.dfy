/** Stage two of the analysis: patterns that only show across sentences. The
    text is cut into sentences; a concern followed directly by a dismissal
    scores, and a denial anywhere together with an attack anywhere is a DARVO
    (Deny, Attack, Reverse Victim and Offender) finding. */
module Contextual {
  import opened TextUtil
  import opened Patterns

  /** The characters of the split pattern `/[.!?]+/`. */
  predicate IsTerminator(c: char)
  {
    c == '.' || c == '!' || c == '?'
  }

  ghost predicate NoTerminator(s: string)
  {
    forall i :: 0 <= i < |s| ==> !IsTerminator(s[i])
  }

  /** Position of the first terminator of `s`, or `|s|` when there is none. */
  function FirstTerminator(s: string): (k: nat)
    ensures k <= |s|
    ensures NoTerminator(s[..k])
    ensures k < |s| ==> IsTerminator(s[k])
  {
    if s == [] || IsTerminator(s[0]) then 0
    else
      var k := 1 + FirstTerminator(s[1..]);
      assert s[..k] == [s[0]] + s[1..][..k - 1];
      k
  }

  /** End of the run of terminators that starts at `k`. */
  function RunEnd(s: string, k: nat): (j: nat)
    requires k <= |s|
    ensures k <= j <= |s|
    ensures k < |s| && IsTerminator(s[k]) ==> k < j
    ensures forall i :: k <= i < j ==> IsTerminator(s[i])
    ensures j < |s| ==> !IsTerminator(s[j])
    decreases |s| - k
  {
    if k < |s| && IsTerminator(s[k]) then RunEnd(s, k + 1) else k
  }

  /** `s.split(/[.!?]+/)`: the pieces between maximal runs of terminators,
      including an empty first or last piece when `s` starts or ends with one. */
  function Pieces(s: string): (ps: seq<string>)
    ensures |ps| >= 1
    decreases |s|
  {
    var k := FirstTerminator(s);
    if k == |s| then [s] else [s[..k]] + Pieces(s[RunEnd(s, k)..])
  }

  /** `.filter(s => s.trim().length > 0)`. */
  function KeepNonBlank(ps: seq<string>): seq<string>
  {
    if ps == [] then []
    else (if |Trim(ps[0])| > 0 then [ps[0]] else []) + KeepNonBlank(ps[1..])
  }

  /** The sentence units of line 203. */
  function Sentences(text: string): seq<string>
  {
    KeepNonBlank(Pieces(text))
  }

  lemma {:induction false} PiecesHaveNoTerminator(s: string)
    ensures forall j :: 0 <= j < |Pieces(s)| ==> NoTerminator(Pieces(s)[j])
    decreases |s|
  {
    var k := FirstTerminator(s);
    if k < |s| {
      var rest := s[RunEnd(s, k)..];
      PiecesHaveNoTerminator(rest);
      assert Pieces(s) == [s[..k]] + Pieces(rest);
    } else {
      assert s[..k] == s;
    }
  }

  lemma {:induction false} KeepNonBlankKeepsVisible(ps: seq<string>)
    ensures forall j :: 0 <= j < |KeepNonBlank(ps)| ==>
      HasVisible(KeepNonBlank(ps)[j]) && KeepNonBlank(ps)[j] in ps
  {
    if ps != [] {
      KeepNonBlankKeepsVisible(ps[1..]);
      TrimNonEmptyIffVisible(ps[0]);
    }
  }

  lemma {:induction false} KeepNonBlankOfVisible(ps: seq<string>)
    requires forall j :: 0 <= j < |ps| ==> HasVisible(ps[j])
    ensures KeepNonBlank(ps) == ps
  {
    if ps != [] {
      KeepNonBlankOfVisible(ps[1..]);
      TrimNonEmptyIffVisible(ps[0]);
    }
  }

  /** Every sentence unit holds something besides whitespace and holds no
      terminator. */
  lemma SentencesAreClean(text: string)
    ensures forall j :: 0 <= j < |Sentences(text)| ==>
      HasVisible(Sentences(text)[j]) && NoTerminator(Sentences(text)[j])
  {
    PiecesHaveNoTerminator(text);
    KeepNonBlankKeepsVisible(Pieces(text));
    forall j | 0 <= j < |Sentences(text)|
      ensures NoTerminator(Sentences(text)[j])
    {
      var s := Sentences(text)[j];
      var m :| 0 <= m < |Pieces(text)| && Pieces(text)[m] == s;
    }
  }

  /** Splitting undoes joining with `"."`: pieces without terminators, all
      but the first and last non-empty, come back unchanged. */
  lemma {:induction false} PiecesOfJoin(ps: seq<string>)
    requires |ps| >= 1
    requires forall j :: 0 <= j < |ps| ==> NoTerminator(ps[j])
    requires forall j :: 0 < j < |ps| - 1 ==> ps[j] != []
    ensures Pieces(Join(ps, ".")) == ps
  {
    var s := Join(ps, ".");
    if |ps| == 1 {
      assert s == ps[0];
    } else {
      var rest := Join(ps[1..], ".");
      assert s == ps[0] + "." + rest;
      var k := FirstTerminator(s);
      assert k == |ps[0]| by {
        assert forall m :: 0 <= m < |ps[0]| ==> s[m] == ps[0][m];
        assert IsTerminator(s[|ps[0]|]);
      }
      assert s[..k] == ps[0];
      var j := RunEnd(s, k);
      assert j == k + 1 by {
        if |ps| > 2 {
          assert rest == ps[1] + "." + Join(ps[2..], ".");
          assert s[k + 1] == ps[1][0];
        } else {
          assert rest == ps[1];
          if |ps[1]| > 0 { assert s[k + 1] == ps[1][0]; }
        }
      }
      assert s[j..] == rest;
      PiecesOfJoin(ps[1..]);
    }
  }

  /** A text made of visible sentences without terminators, each followed by
      a full stop, has exactly those sentences as its units. */
  lemma SentencesOfJoin(ps: seq<string>)
    requires forall j :: 0 <= j < |ps| ==> NoTerminator(ps[j]) && HasVisible(ps[j])
    ensures Sentences(Join(ps + [""], ".")) == ps
  {
    var qs := ps + [""];
    forall j | 0 < j < |qs| - 1 ensures qs[j] != [] {
      assert HasVisible(ps[j]);
    }
    PiecesOfJoin(qs);
    assert !HasVisible("");
    TrimNonEmptyIffVisible("");
    KeepNonBlankOfVisible(ps);
    KeepNonBlankAppendBlank(ps);
  }

  lemma {:induction false} KeepNonBlankAppendBlank(ps: seq<string>)
    ensures KeepNonBlank(ps + [""]) == KeepNonBlank(ps)
  {
    TrimNonEmptyIffVisible("");
    if ps != [] {
      assert (ps + [""])[1..] == ps[1..] + [""];
      KeepNonBlankAppendBlank(ps[1..]);
    }
  }

  /** `/(i feel|i'm hurt|that hurt|i don't like|bothers me|upset)/gi` (line 212). */
  const ConcernWords: seq<string> := ["i feel", "i'm hurt", "that hurt", "i don't like", "bothers me", "upset"]
  /** `/(you're|stop|get over|not a big deal|overreacting)/gi` (line 214). */
  const DismissalWords: seq<string> := ["you're", "stop", "get over", "not a big deal", "overreacting"]
  /** `denyWords` (line 230). */
  const DenyWords: seq<string> := ["i never", "i didn't", "that's not", "no i"]
  /** `attackWords` (line 231). */
  const AttackWords: seq<string> := ["you always", "you never", "you're the one", "your fault"]
  /** `victimWords` (line 232): declared by the analyzer and never consulted. */
  const VictimWords: seq<string> := ["i'm the victim", "you're hurting me", "i'm trying to help"]

  const DismissalWeight := 5
  const DarvoWeight := 8

  predicate ExpressesConcern(sentence: string)
  {
    ContainsAnyFolded(sentence, ConcernWords)
  }

  predicate Dismisses(sentence: string)
  {
    ContainsAnyFolded(sentence, DismissalWords)
  }

  /** Number of adjacent pairs of `ss` whose first element raises a concern and
      whose second dismisses it. */
  function DismissalCount(ss: seq<string>): nat
  {
    if |ss| < 2 then 0
    else DismissalCount(ss[..|ss| - 1]) + (if DismissedAt(ss, |ss| - 2) then 1 else 0)
  }

  /** The sentence at `i` raises a concern and the next one dismisses it. */
  predicate DismissedAt(ss: seq<string>, i: nat)
    requires i + 1 < |ss|
  {
    ExpressesConcern(ss[i]) && Dismisses(ss[i + 1])
  }

  /** Positions where a dismissal directly follows a concern. */
  ghost function DismissalPositions(ss: seq<string>): set<nat>
  {
    set i: nat | i + 1 < |ss| && DismissedAt(ss, i)
  }

  /** The window of two slides over every adjacent pair once: the count is the
      number of positions where a dismissal follows a concern, overlapping
      windows included. */
  lemma {:induction false} DismissalCountIsPositionCount(ss: seq<string>)
    ensures DismissalCount(ss) == |DismissalPositions(ss)|
  {
    if |ss| < 2 {
      assert DismissalPositions(ss) == {};
    } else {
      var prefix := ss[..|ss| - 1];
      DismissalCountIsPositionCount(prefix);
      var m := |ss| - 2;
      forall i: nat | i + 1 < |prefix|
        ensures DismissedAt(prefix, i) == DismissedAt(ss, i)
      {
        assert prefix[i] == ss[i] && prefix[i + 1] == ss[i + 1];
      }
      var before, after := DismissalPositions(prefix), DismissalPositions(ss);
      assert m !in before;
      if DismissedAt(ss, m) {
        assert after == before + {m} by {
          forall x | x in after ensures x in before + {m} {
            if x != m { assert DismissedAt(prefix, x); }
          }
          forall x | x in before + {m} ensures x in after {
            if x != m { assert DismissedAt(ss, x); }
          }
        }
      } else {
        assert after == before by {
          forall x | x in after ensures x in before {
            assert x != m;
            assert DismissedAt(prefix, x);
          }
        }
      }
    }
  }

  /** Deny and attack both occur somewhere in the text (line 234). */
  predicate IsDarvo(text: string)
  {
    ContainsAnyFolded(text, DenyWords) && ContainsAnyFolded(text, AttackWords)
  }

  /** The one summary record of the dismissal rule, when it fired. */
  function DismissalRecords(count: nat): seq<Tactic>
  {
    if count > 0 then [Tactic("dismissalPattern", [NatToString(count) + " instances of dismissing concerns"], DismissalWeight)]
    else []
  }

  /** The one record of the DARVO rule, when it fired. */
  function DarvoRecords(text: string): seq<Tactic>
  {
    if IsDarvo(text) then [Tactic("DARVO", ["Deny-Attack-Reverse pattern detected"], DarvoWeight)] else []
  }

  /** The score of the contextual stage. */
  function ContextScore(text: string): int
  {
    DismissalWeight * DismissalCount(Sentences(text)) + (if IsDarvo(text) then DarvoWeight else 0)
  }

  /** The records of the contextual stage: dismissal first, then DARVO. */
  function ContextTactics(text: string): seq<Tactic>
  {
    DismissalRecords(DismissalCount(Sentences(text))) + DarvoRecords(text)
  }

  /** `analyzeContextualPatterns` (lines 198-244). */
  method AnalyzeContextualPatterns(text: string) returns (score: int, tactics: seq<Tactic>)
    ensures score == ContextScore(text)
    ensures tactics == ContextTactics(text)
  {
    score, tactics := 0, [];
    var sentences := Sentences(text);
    var dismissalAfterConcern := 0;
    var i := 0;
    while i < |sentences| - 1
      invariant 0 <= i && (|sentences| > 0 ==> i < |sentences|)
      invariant dismissalAfterConcern == DismissalCount(sentences[..if sentences == [] then 0 else i + 1])
      invariant score == DismissalWeight * dismissalAfterConcern
    {
      var current, next := sentences[i], sentences[i + 1];
      assert sentences[..i + 2][..i + 1] == sentences[..i + 1];
      if ContainsAnyFolded(current, ConcernWords) {
        if ContainsAnyFolded(next, DismissalWords) {
          dismissalAfterConcern := dismissalAfterConcern + 1;
          score := score + 5;
        }
      }
      i := i + 1;
    }
    assert sentences[..if sentences == [] then 0 else i + 1] == sentences;

    if dismissalAfterConcern > 0 {
      tactics := tactics + [Tactic("dismissalPattern", [NatToString(dismissalAfterConcern) + " instances of dismissing concerns"], 5)];
    }

    if ContainsAnyFolded(text, DenyWords) && ContainsAnyFolded(text, AttackWords) {
      score := score + 8;
      tactics := tactics + [Tactic("DARVO", ["Deny-Attack-Reverse pattern detected"], 8)];
    }
  }

  /** The stage scores non-negatively, and it scores zero exactly when it
      emits no record: each record comes with a strictly positive addition. */
  lemma ContextScoreZeroIffNoRecords(text: string)
    ensures ContextScore(text) >= 0
    ensures ContextScore(text) == 0 <==> ContextTactics(text) == []
  {
  }

  /** At most one record per rule: a single dismissal record of weight 5,
      whose line reads back as the number of dismissed concerns, exactly when
      some concern was dismissed; a single DARVO record of weight 8 exactly
      when deny and attack both occur, however often each does. */
  lemma ContextRecordsOnePerRule(text: string)
    ensures var n := DismissalCount(Sentences(text));
      var ts := ContextTactics(text);
      && |ts| == (if n > 0 then 1 else 0) + (if IsDarvo(text) then 1 else 0)
      && (n > 0 ==> ts[0].category == "dismissalPattern" && ts[0].weight == 5
                    && |ts[0].matches| == 1
                    && ParseNat(ts[0].matches[0][..|NatToString(n)|]) == n)
      && (IsDarvo(text) ==> ts[|ts| - 1] == Tactic("DARVO", ["Deny-Attack-Reverse pattern detected"], 8))
  {
    var n := DismissalCount(Sentences(text));
    if n > 0 {
      ParseNatToString(n);
      var line := NatToString(n) + " instances of dismissing concerns";
      assert line[..|NatToString(n)|] == NatToString(n);
    }
  }

  /** The contextual records are of the two contextual categories only. */
  lemma ContextCategories(text: string, j: nat)
    requires j < |ContextTactics(text)|
    ensures ContextTactics(text)[j].category == "dismissalPattern" || ContextTactics(text)[j].category == "DARVO"
  {
  }

  /** An occurrence of a word, in any letter case, is found by the substring test. */
  lemma OccurrenceIsFound(s: string, w: string, i: nat)
    requires FoldedAt(s, i, w)
    ensures ContainsFolded(s, w)
  {
    ContainsFoldedIffWindow(s, w);
  }

  /** The DARVO rule fires as soon as one deny phrase and one attack phrase
      occur anywhere in the text, in any letter case; what else the text
      says, including the victim phrases, does not matter. */
  lemma DarvoFromAnyDenyAndAttack(text: string, d: nat, a: nat, i: nat, k: nat)
    requires d < |DenyWords| && a < |AttackWords|
    requires FoldedAt(text, i, DenyWords[d]) && FoldedAt(text, k, AttackWords[a])
    ensures IsDarvo(text)
    ensures ContextScore(text) == DismissalWeight * DismissalCount(Sentences(text)) + DarvoWeight
  {
    OccurrenceIsFound(text, DenyWords[d], i);
    OccurrenceIsFound(text, AttackWords[a], k);
    ContainsAnyFoldedIffSome(text, DenyWords);
    ContainsAnyFoldedIffSome(text, AttackWords);
  }

  /** Conversely the rule fires only on a deny phrase and an attack phrase. */
  lemma DarvoNeedsDenyAndAttack(text: string)
    requires IsDarvo(text)
    ensures exists d :: 0 <= d < |DenyWords| && ContainsFolded(text, DenyWords[d])
    ensures exists a :: 0 <= a < |AttackWords| && ContainsFolded(text, AttackWords[a])
  {
    ContainsAnyFoldedIffSome(text, DenyWords);
    ContainsAnyFoldedIffSome(text, AttackWords);
  }

  /** A concern sentence followed by a dismissal sentence, written as
      `a.b.`, scores 5 for the pair. */
  lemma ConcernThenDismissal(a: string, b: string)
    requires NoTerminator(a) && HasVisible(a) && ExpressesConcern(a)
    requires NoTerminator(b) && HasVisible(b) && Dismisses(b)
    ensures DismissalCount(Sentences(a + "." + b + ".")) == 1
  {
    SentencesOfJoin([a, b]);
    var ps := [a, b] + [""];
    assert Join(ps[2..], ".") == "";
    assert Join(ps[1..], ".") == b + "." + "";
    assert Join(ps, ".") == a + "." + b + ".";
    assert [a, b][..1] == [a];
  }
}
