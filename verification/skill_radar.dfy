/** The skill radar: the first six skills projected onto chart rows. */
module SkillRadar {
  import opened Types

  const MAX_AXES: nat := 6
  const FULL_MARK: int := 100

  /** One axis of the radar chart. */
  datatype RadarRow = RadarRow(subject: string, you: int, target: int, fullMark: int)

  function RowOf(skill: SkillPoint): RadarRow
  {
    RadarRow(skill.skillName, skill.currentProficiency, skill.requiredProficiency, FULL_MARK)
  }

  /** `map` over the skills: one row per skill, in order. */
  function Rows(skills: seq<SkillPoint>): (rows: seq<RadarRow>)
    ensures |rows| == |skills|
    ensures forall i :: 0 <= i < |skills| ==> rows[i] == RowOf(skills[i])
  {
    if skills == [] then [] else [RowOf(skills[0])] + Rows(skills[1..])
  }

  /**
   * `skills.slice(0, 6).map(...)`: the first six skills, in order, as rows
   * naming the skill, the candidate's level, the role's level and the fixed
   * full mark; skills after the sixth are ignored.
   */
  function ChartData(skills: seq<SkillPoint>): (rows: seq<RadarRow>)
    ensures |rows| == if |skills| < MAX_AXES then |skills| else MAX_AXES
    ensures forall i :: 0 <= i < |rows| ==>
      rows[i].subject == skills[i].skillName &&
      rows[i].you == skills[i].currentProficiency &&
      rows[i].target == skills[i].requiredProficiency &&
      rows[i].fullMark == 100
  {
    var shown := if |skills| < MAX_AXES then skills else skills[..MAX_AXES];
    Rows(shown)
  }

  /** Skills after the sixth do not affect the chart. */
  lemma ChartIgnoresTail(skills: seq<SkillPoint>, more: seq<SkillPoint>)
    requires |skills| >= MAX_AXES
    ensures ChartData(skills + more) == ChartData(skills)
  {
    assert (skills + more)[..MAX_AXES] == skills[..MAX_AXES];
  }
}
