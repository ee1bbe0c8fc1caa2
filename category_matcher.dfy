/** Stage one of the analysis: every detector of every category is run over the
    whole text; each match adds the category weight to the score, and each
    category that matched at all yields one record. */
module CategoryMatcher {
  import opened Patterns

  /** Every match of the detectors `ds` on `text`, concatenated in detector order. */
  function DetectorMatches(ds: seq<Regex>, text: string, engine: Engine): seq<string>
  {
    if ds == [] then []
    else DetectorMatches(ds[..|ds| - 1], text, engine) + engine(ds[|ds| - 1], text)
  }

  /** What the detector loop adds to the score: `weight` times the number of
      matches, one detector after the other. */
  function DetectorScore(weight: int, ds: seq<Regex>, text: string, engine: Engine): int
  {
    if ds == [] then 0
    else DetectorScore(weight, ds[..|ds| - 1], text, engine) + weight * |engine(ds[|ds| - 1], text)|
  }

  /** The record category `c` contributes: none when no detector matched. */
  function CategoryRecord(c: Category, text: string, engine: Engine): seq<Tactic>
  {
    var m := DetectorMatches(c.detectors, text, engine);
    if |m| > 0 then [Tactic(c.id, m, c.weight)] else []
  }

  /** The records of a table, in table order. */
  function TableRecords(table: seq<Category>, text: string, engine: Engine): seq<Tactic>
  {
    if table == [] then []
    else TableRecords(table[..|table| - 1], text, engine) + CategoryRecord(table[|table| - 1], text, engine)
  }

  /** The score the category loop accumulates over a table. */
  function TableScore(table: seq<Category>, text: string, engine: Engine): int
  {
    if table == [] then 0
    else
      var c := table[|table| - 1];
      TableScore(table[..|table| - 1], text, engine) + DetectorScore(c.weight, c.detectors, text, engine)
  }

  /** The score a list of records stands for: each record's weight once per
      match it lists. */
  function WeightedSize(ts: seq<Tactic>): int
  {
    if ts == [] then 0
    else WeightedSize(ts[..|ts| - 1]) + ts[|ts| - 1].weight * |ts[|ts| - 1].matches|
  }

  /** Lines 166-185 of `analyzeForGaslighting`: the nested category and
      detector loops over the category table (`Table` in the analysis). */
  method MatchCategories(table: seq<Category>, text: string, engine: Engine) returns (score: int, tactics: seq<Tactic>)
    ensures score == TableScore(table, text, engine)
    ensures tactics == TableRecords(table, text, engine)
  {
    score, tactics := 0, [];
    for i := 0 to |table|
      invariant score == TableScore(table[..i], text, engine)
      invariant tactics == TableRecords(table[..i], text, engine)
    {
      var data := table[i];
      var categoryMatches: seq<string> := [];
      for j := 0 to |data.detectors|
        invariant categoryMatches == DetectorMatches(data.detectors[..j], text, engine)
        invariant score == TableScore(table[..i], text, engine) + DetectorScore(data.weight, data.detectors[..j], text, engine)
      {
        assert data.detectors[..j + 1][..j] == data.detectors[..j];
        var matches := engine(data.detectors[j], text);
        if matches != [] {
          categoryMatches := categoryMatches + matches;
          score := score + data.weight * |matches|;
        }
      }
      assert data.detectors[..|data.detectors|] == data.detectors;
      assert table[..i + 1][..i] == table[..i];
      if |categoryMatches| > 0 {
        tactics := tactics + [Tactic(data.id, categoryMatches, data.weight)];
      }
    }
    assert table[..|table|] == table;
  }

  /** A category's weight is applied once per match of any of its detectors:
      a phrase found twice adds the weight twice. */
  lemma {:induction false} DetectorScoreCountsEveryMatch(weight: int, ds: seq<Regex>, text: string, engine: Engine)
    ensures DetectorScore(weight, ds, text, engine) == weight * |DetectorMatches(ds, text, engine)|
  {
    if ds != [] {
      var prefix, last := ds[..|ds| - 1], ds[|ds| - 1];
      DetectorScoreCountsEveryMatch(weight, prefix, text, engine);
      calc {
        DetectorScore(weight, ds, text, engine);
        weight * |DetectorMatches(prefix, text, engine)| + weight * |engine(last, text)|;
        weight * (|DetectorMatches(prefix, text, engine)| + |engine(last, text)|);
        weight * |DetectorMatches(ds, text, engine)|;
      }
    }
  }

  /** The table score is exactly the score the emitted records stand for: no
      match scores without appearing in a record, and none appears twice. */
  lemma {:induction false} TableScoreIsWeightedSizeOfRecords(table: seq<Category>, text: string, engine: Engine)
    ensures TableScore(table, text, engine) == WeightedSize(TableRecords(table, text, engine))
  {
    if table != [] {
      var prefix, c := table[..|table| - 1], table[|table| - 1];
      TableScoreIsWeightedSizeOfRecords(prefix, text, engine);
      DetectorScoreCountsEveryMatch(c.weight, c.detectors, text, engine);
      var rs := TableRecords(prefix, text, engine);
      if |DetectorMatches(c.detectors, text, engine)| > 0 {
        assert (rs + CategoryRecord(c, text, engine))[..|rs|] == rs;
      } else {
        assert rs + CategoryRecord(c, text, engine) == rs;
      }
    }
  }

  /** The records are those of the matching categories, one each, in table
      order: `idx` gives, for each record, the strictly increasing position
      of its category in the table, and a position is listed exactly when
      some detector of that category matched. */
  lemma {:induction false} RecordsFollowTable(table: seq<Category>, text: string, engine: Engine)
    returns (idx: seq<nat>)
    ensures |idx| == |TableRecords(table, text, engine)|
    ensures forall j :: 0 <= j < |idx| ==> idx[j] < |table|
    ensures forall j1, j2 :: 0 <= j1 < j2 < |idx| ==> idx[j1] < idx[j2]
    ensures forall j :: 0 <= j < |idx| ==>
      var c := table[idx[j]];
      TableRecords(table, text, engine)[j] == Tactic(c.id, DetectorMatches(c.detectors, text, engine), c.weight)
      && |DetectorMatches(c.detectors, text, engine)| > 0
    ensures forall k :: 0 <= k < |table| ==>
      (k in idx <==> |DetectorMatches(table[k].detectors, text, engine)| > 0)
  {
    if table == [] {
      idx := [];
    } else {
      var prefix, c := table[..|table| - 1], table[|table| - 1];
      var pre := RecordsFollowTable(prefix, text, engine);
      var rs := TableRecords(prefix, text, engine);
      assert forall k :: 0 <= k < |prefix| ==> prefix[k] == table[k];
      if |DetectorMatches(c.detectors, text, engine)| > 0 {
        idx := pre + [|table| - 1];
        assert TableRecords(table, text, engine) == rs + [Tactic(c.id, DetectorMatches(c.detectors, text, engine), c.weight)];
      } else {
        idx := pre;
        assert TableRecords(table, text, engine) == rs;
      }
    }
  }

  /** Every record names a category of the table. */
  lemma RecordCategoryInTable(table: seq<Category>, text: string, engine: Engine, j: nat) returns (k: nat)
    requires j < |TableRecords(table, text, engine)|
    ensures k < |table| && TableRecords(table, text, engine)[j].category == table[k].id
  {
    var idx := RecordsFollowTable(table, text, engine);
    k := idx[j];
  }

  /** Records with positive weights and at least one match each stand for a
      positive score, so their weighted size is zero exactly when there are
      none. */
  lemma {:induction false} WeightedSizeZeroIffNone(ts: seq<Tactic>)
    requires forall j :: 0 <= j < |ts| ==> ts[j].weight > 0 && |ts[j].matches| > 0
    ensures WeightedSize(ts) >= 0
    ensures WeightedSize(ts) == 0 <==> ts == []
  {
    if ts != [] {
      var last := ts[|ts| - 1];
      WeightedSizeZeroIffNone(ts[..|ts| - 1]);
      assert last.weight * |last.matches| > 0 by {
        assert last.weight >= 1 && |last.matches| >= 1;
      }
    }
  }

  /** For a table of positive weights the category stage has a non-negative
      score, and that score is zero exactly when it emits no record. */
  lemma CategoryScoreZeroIffNoRecords(table: seq<Category>, text: string, engine: Engine)
    requires WellFormed(table)
    ensures TableScore(table, text, engine) >= 0
    ensures TableScore(table, text, engine) == 0 <==> TableRecords(table, text, engine) == []
  {
    var idx := RecordsFollowTable(table, text, engine);
    TableScoreIsWeightedSizeOfRecords(table, text, engine);
    WeightedSizeZeroIffNone(TableRecords(table, text, engine));
  }
}
