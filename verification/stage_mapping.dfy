/**
 * The `CASE` expression of the warehouse query that turns the pipeline
 * stage code of a deal line item into the "Stage type" label shown to users.
 * The rest of the query (the snapshot filter, date parts, column renames) is
 * executed by the warehouse and is not part of this model.
 */
module StageMapping {
  import opened Common

  /** The codes tested by the `WHEN` branches, in branch order. */
  const Codes: seq<string> :=
    ["STAGE 0", "STAGE 1", "STAGE 2", "STAGE 3", "STAGE 4", "STAGE 5", "STAGE 6"]

  /** The label each branch yields; `Labels[k]` belongs to `Codes[k]`. */
  const Labels: seq<string> :=
    ["0-NEW", "1-Connected to Meeting", "2-Needs Expressed", "3-Qualified Opportunity",
     "4-Proposal Presented", "5-Verbal Agreement", "6-Contracted"]

  /**
   * The `CASE` on a non-NULL stage: each of the seven codes gets its fixed
   * label, and every other value reaches the `ELSE` branch unchanged.
   */
  function StageLabel(stage: string): (shown: string)
    ensures forall k :: 0 <= k < |Codes| && stage == Codes[k] ==> shown == Labels[k]
    ensures stage !in Codes ==> shown == stage
  {
    if stage == "STAGE 0" then "0-NEW"
    else if stage == "STAGE 1" then "1-Connected to Meeting"
    else if stage == "STAGE 2" then "2-Needs Expressed"
    else if stage == "STAGE 3" then "3-Qualified Opportunity"
    else if stage == "STAGE 4" then "4-Proposal Presented"
    else if stage == "STAGE 5" then "5-Verbal Agreement"
    else if stage == "STAGE 6" then "6-Contracted"
    else stage
  }

  /**
   * The `CASE` on a nullable column value. A NULL stage makes every
   * `WHEN` comparison unknown, so the `ELSE` branch returns the NULL itself.
   */
  function StageColumn(stage: Option<string>): (shown: Option<string>)
    ensures forall k :: 0 <= k < |Codes| && stage == Some(Codes[k]) ==> shown == Some(Labels[k])
    ensures stage.None? || stage.value !in Codes ==> shown == stage
  {
    match stage
    case None => None
    case Some(s) => Some(StageLabel(s))
  }

  /** No label is itself a stage code: every label starts with a digit. */
  lemma LabelsAreNotCodes()
    ensures forall k :: 0 <= k < |Labels| ==> Labels[k] !in Codes
  {
    forall k | 0 <= k < |Labels|
      ensures Labels[k] !in Codes
    {
      assert Labels[k][0] in "0123456";
      forall j | 0 <= j < |Codes|
        ensures Labels[k] != Codes[j]
      {
        assert Codes[j][0] == 'S';
      }
    }
  }

  /** A value is left unchanged exactly when it is not one of the seven codes. */
  lemma StageLabelFixedPoints(stage: string)
    ensures StageLabel(stage) == stage <==> stage !in Codes
  {
    if stage in Codes {
      var k :| 0 <= k < |Codes| && stage == Codes[k];
      LabelsAreNotCodes();
      assert Labels[k] !in Codes;
    }
  }

  /** Mapping an already mapped stage changes nothing. */
  lemma StageLabelIdempotent(stage: string)
    ensures StageLabel(StageLabel(stage)) == StageLabel(stage)
  {
    if stage in Codes {
      var k :| 0 <= k < |Codes| && stage == Codes[k];
      LabelsAreNotCodes();
      StageLabelFixedPoints(Labels[k]);
    }
  }

  /** Distinct codes get distinct labels, so the mapping loses no stage. */
  lemma StageLabelInjectiveOnCodes(a: string, b: string)
    requires a in Codes && b in Codes && a != b
    ensures StageLabel(a) != StageLabel(b)
  {
    var i :| 0 <= i < |Codes| && a == Codes[i];
    var j :| 0 <= j < |Codes| && b == Codes[j];
    assert Labels[i][0] == Codes[i][6] && Labels[j][0] == Codes[j][6];
  }
}
