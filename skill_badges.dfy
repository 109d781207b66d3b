/**
 * The skills cell shared by the candidate table and the job-description table:
 * `skills.slice(0, 3)` as badges, then a `+k` badge when more remain.
 */
module SkillBadges {
  import opened Wrappers

  datatype Badges = Badges(shown: seq<string>, more: Option<nat>)

  const VisibleSkills: nat := 3

  function Truncate(skills: seq<string>): (r: Badges)
    ensures |r.shown| == if |skills| < VisibleSkills then |skills| else VisibleSkills
    ensures r.shown == skills[..|r.shown|]
    ensures r.more.Some? <==> |skills| > VisibleSkills
    ensures |r.shown| + r.more.GetOr(0) == |skills|
  {
    var shown := if |skills| < VisibleSkills then skills else skills[..VisibleSkills];
    Badges(shown, if |skills| > VisibleSkills then Some(|skills| - VisibleSkills) else None)
  }
}
