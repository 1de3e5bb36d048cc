/**
 * The ceremony angle catalogue and its Shu-Ha-Ri unlock rules: a fixed table
 * of nine angles over three ordered levels, lookups over it, and the checklist
 * a team sees for reaching the next level.
 */
module Ceremonies {
  import opened Optional
  import JsMath

  // ---------------------------------------------------------------------------
  // Sequence helpers, as the array methods the catalogue code uses
  // ---------------------------------------------------------------------------

  /** `Array.prototype.indexOf`: the first position of x, or -1. */
  function IndexOf<T(==)>(s: seq<T>, x: T): (i: int)
    ensures -1 <= i < |s|
    ensures i == -1 <==> x !in s
    ensures 0 <= i ==> s[i] == x && forall k :: 0 <= k < i ==> s[k] != x
  {
    if s == [] then -1
    else if s[0] == x then 0
    else
      var j := IndexOf(s[1..], x);
      assert x in s <==> x in s[1..];
      if j == -1 then -1 else j + 1
  }

  /** `Array.prototype.filter`: the elements satisfying p, in their order. */
  function Filter<T>(s: seq<T>, p: T -> bool): (r: seq<T>)
    ensures |r| <= |s|
    ensures forall i :: 0 <= i < |r| ==> r[i] in s && p(r[i])
    ensures forall i :: 0 <= i < |s| && p(s[i]) ==> s[i] in r
  {
    if s == [] then []
    else
      var rest := Filter(s[1..], p);
      assert s == [s[0]] + s[1..];
      (if p(s[0]) then [s[0]] else []) + rest
  }

  /** Filtering one element keeps it exactly when it passes. */
  lemma FilterSingleton<T>(x: T, p: T -> bool)
    ensures Filter([x], p) == if p(x) then [x] else []
  {
    assert [x][1..] == [];
  }

  /**
   * Filtering a concatenation filters each part and keeps them in order; with
   * FilterSingleton this pins Filter down to `filter`: order and repeats kept.
   */
  lemma {:induction false} FilterConcat<T>(s: seq<T>, t: seq<T>, p: T -> bool)
    ensures Filter(s + t, p) == Filter(s, p) + Filter(t, p)
  {
    if s == [] {
      assert s + t == t;
    } else {
      assert (s + t)[0] == s[0];
      assert (s + t)[1..] == s[1..] + t;
      FilterConcat(s[1..], t, p);
    }
  }

  /** `Array.prototype.find`: the first element satisfying p, if any. */
  function FindFirst<T>(s: seq<T>, p: T -> bool): (r: Option<T>)
    ensures r.None? <==> forall i :: 0 <= i < |s| ==> !p(s[i])
    ensures r.Some? ==>
      exists i :: 0 <= i < |s| && s[i] == r.value && p(s[i]) && forall j :: 0 <= j < i ==> !p(s[j])
  {
    if s == [] then None
    else if p(s[0]) then Some(s[0])
    else
      var r := FindFirst(s[1..], p);
      assert forall i :: 1 <= i < |s| ==> s[i] == s[1..][i - 1];
      r
  }

  // ---------------------------------------------------------------------------
  // Levels and angles
  // ---------------------------------------------------------------------------

  /** The progression levels, Shu (learn the basics), Ha (adapt), Ri (mastery). */
  datatype CeremonyLevel = Shu | Ha | Ri

  /** Angle identifiers as they are stored and passed around ('retro', 'flow', ...). */
  type AngleId = string

  /** One catalogue entry: an angle and the level that unlocks it (`label` is a Dafny keyword, hence `labelText`). */
  datatype AngleInfo = AngleInfo(id: AngleId, labelText: string, description: string, level: CeremonyLevel)

  /** The level order the lookups index into. */
  const LEVEL_ORDER: seq<CeremonyLevel> := [Shu, Ha, Ri]

  const RETRO_DESCRIPTION := "Are we improving? Do actions lead to change?"
  const PLANNING_DESCRIPTION := "Is commitment realistic? Is the Sprint Goal clear?"
  const SCRUM_DESCRIPTION := "Are events useful? Is the framework helping?"
  const FLOW_DESCRIPTION := "Is work moving? Are we finishing what we start?"
  const COLLABORATION_DESCRIPTION := "Are we working together? Is knowledge shared?"
  const REFINEMENT_DESCRIPTION := "Are stories ready? Is the backlog actionable?"
  const OWNERSHIP_DESCRIPTION := "Does the team own it? Can we act without asking?"
  const TECHNICAL_EXCELLENCE_DESCRIPTION := "Is the code getting better? Are we building quality in?"
  const DEMO_DESCRIPTION := "Are stakeholders engaged? Is feedback valuable?"

  /** The angle catalogue, three angles per level, in level order. */
  const ANGLES: seq<AngleInfo> := [
    AngleInfo("retro", "Retro", RETRO_DESCRIPTION, Shu),
    AngleInfo("planning", "Planning", PLANNING_DESCRIPTION, Shu),
    AngleInfo("scrum", "Scrum", SCRUM_DESCRIPTION, Shu),
    AngleInfo("flow", "Flow", FLOW_DESCRIPTION, Ha),
    AngleInfo("collaboration", "Collaboration", COLLABORATION_DESCRIPTION, Ha),
    AngleInfo("refinement", "Refinement", REFINEMENT_DESCRIPTION, Ha),
    AngleInfo("ownership", "Ownership", OWNERSHIP_DESCRIPTION, Ri),
    AngleInfo("technical_excellence", "Technical Excellence", TECHNICAL_EXCELLENCE_DESCRIPTION, Ri),
    AngleInfo("demo", "Demo", DEMO_DESCRIPTION, Ri)
  ]

  /** `levelOrder.indexOf(level)`: the position of a level in LEVEL_ORDER. */
  function LevelIndex(level: CeremonyLevel): (i: nat)
    ensures i < |LEVEL_ORDER| && LEVEL_ORDER[i] == level
  {
    match level
    case Shu => 0
    case Ha => 1
    case Ri => 2
  }

  /** Every level is found in LEVEL_ORDER, so indexOf never yields -1 for one. */
  lemma LevelIndexIsIndexOf(level: CeremonyLevel)
    ensures IndexOf(LEVEL_ORDER, level) == LevelIndex(level)
  {
    assert LEVEL_ORDER[LevelIndex(level)] == level;
  }

  /** The catalogue lists the Shu angles, then the Ha angles, then the Ri angles. */
  lemma AngleLevels()
    ensures |ANGLES| == 9
    ensures forall i :: 0 <= i < 3 ==> ANGLES[i].level == Shu
    ensures forall i :: 3 <= i < 6 ==> ANGLES[i].level == Ha
    ensures forall i :: 6 <= i < 9 ==> ANGLES[i].level == Ri
  {
    assert ANGLES[0].level == Shu && ANGLES[1].level == Shu && ANGLES[2].level == Shu;
    assert ANGLES[3].level == Ha && ANGLES[4].level == Ha && ANGLES[5].level == Ha;
    assert ANGLES[6].level == Ri && ANGLES[7].level == Ri && ANGLES[8].level == Ri;
  }

  /** The filter of getAnglesForLevel: the angle's level is not above `level`. */
  function AtOrBelow(level: CeremonyLevel): AngleInfo -> bool
  {
    (angle: AngleInfo) => LevelIndex(angle.level) <= LevelIndex(level)
  }

  /** The filter of getAnglesGroupedByLevel: the angle's level is `level`. */
  function AtLevel(level: CeremonyLevel): AngleInfo -> bool
  {
    (angle: AngleInfo) => angle.level == level
  }

  /** The find of the angle lookups: the entry's id is `id`. */
  function HasId(id: AngleId): AngleInfo -> bool
  {
    (angle: AngleInfo) => angle.id == id
  }

  /** No two catalogue entries share an id. */
  lemma AngleIdsDistinct()
    ensures forall i, j :: 0 <= i < |ANGLES| && 0 <= j < |ANGLES| && ANGLES[i].id == ANGLES[j].id ==> i == j
  {
  }

  /**
   * The angles a team at `level` may use: every catalogue entry whose level is
   * not above it, in catalogue order. That is the first 3, 6 or 9 entries.
   */
  function GetAnglesForLevel(level: CeremonyLevel): (angles: seq<AngleInfo>)
    ensures forall a :: a in angles <==> a in ANGLES && LevelIndex(a.level) <= LevelIndex(level)
    ensures angles == ANGLES[..3 * (LevelIndex(level) + 1)]
  {
    var r := Filter(ANGLES, AtOrBelow(level));
    AnglesForLevelIsPrefix(level);
    r
  }

  /** The filter over the catalogue keeps exactly its first three entries per unlocked level. */
  lemma AnglesForLevelIsPrefix(level: CeremonyLevel)
    ensures Filter(ANGLES, AtOrBelow(level)) == ANGLES[..3 * (LevelIndex(level) + 1)]
  {
    var k := 3 * (LevelIndex(level) + 1);
    var p := AtOrBelow(level);
    AngleLevels();
    assert forall i :: 0 <= i < |ANGLES| ==> (p(ANGLES[i]) <==> i < k);
    FilterPrefix(ANGLES, p, k);
  }

  /** Filtering a sequence whose first k elements pass and whose others fail gives those k. */
  lemma {:induction false} FilterPrefix<T>(s: seq<T>, p: T -> bool, k: nat)
    requires k <= |s|
    requires forall i :: 0 <= i < |s| ==> (p(s[i]) <==> i < k)
    ensures Filter(s, p) == s[..k]
  {
    if s != [] {
      var t := s[1..];
      assert forall i :: 0 <= i < |t| ==> t[i] == s[i + 1];
      if k == 0 {
        FilterPrefix(t, p, 0);
      } else {
        FilterPrefix(t, p, k - 1);
        assert s[..k] == [s[0]] + t[..k - 1];
      }
    }
  }

  /** A higher level's angles extend a lower level's. */
  lemma AnglesForLevelGrow(lower: CeremonyLevel, higher: CeremonyLevel)
    requires LevelIndex(lower) <= LevelIndex(higher)
    ensures |GetAnglesForLevel(lower)| == 3 * (LevelIndex(lower) + 1)
    ensures GetAnglesForLevel(lower) == GetAnglesForLevel(higher)[..|GetAnglesForLevel(lower)|]
  {
    var k1 := 3 * (LevelIndex(lower) + 1);
    var k2 := 3 * (LevelIndex(higher) + 1);
    PrefixOfPrefix(ANGLES, k1, k2);
  }

  /** A prefix of a longer prefix is the shorter prefix. */
  lemma PrefixOfPrefix<T>(s: seq<T>, k1: nat, k2: nat)
    requires k1 <= k2 <= |s|
    ensures s[..k2][..k1] == s[..k1]
  {
  }

  /** The catalogue split by level, for display. */
  datatype AnglesByLevel = AnglesByLevel(shu: seq<AngleInfo>, ha: seq<AngleInfo>, ri: seq<AngleInfo>)

  /** The angles of one level within a grouping. */
  function Group(g: AnglesByLevel, level: CeremonyLevel): seq<AngleInfo>
  {
    match level
    case Shu => g.shu
    case Ha => g.ha
    case Ri => g.ri
  }

  /** The angles of exactly one level: the catalogue's slice for that level. */
  function AnglesAt(level: CeremonyLevel): (r: seq<AngleInfo>)
    ensures forall i :: 0 <= i < |r| ==> r[i].level == level
    ensures r == ANGLES[3 * LevelIndex(level)..3 * LevelIndex(level) + 3]
  {
    GroupIsSlice(level, 3 * LevelIndex(level), 3 * LevelIndex(level) + 3);
    Filter(ANGLES, AtLevel(level))
  }

  /**
   * The catalogue grouped by level: each group holds exactly the entries of
   * its level, three each, and the groups laid end to end are the catalogue.
   */
  function GetAnglesGroupedByLevel(): (g: AnglesByLevel)
    ensures forall l, i :: 0 <= i < |Group(g, l)| ==> Group(g, l)[i].level == l
    ensures |g.shu| == 3 && |g.ha| == 3 && |g.ri| == 3
    ensures g.shu + g.ha + g.ri == ANGLES
  {
    var g := AnglesByLevel(AnglesAt(Shu), AnglesAt(Ha), AnglesAt(Ri));
    GroupLevels(g);
    AngleLevels();
    ThirdsJoin(ANGLES);
    g
  }

  /** A grouping whose groups hold entries of their own level, stated level by level. */
  lemma GroupLevels(g: AnglesByLevel)
    requires forall i :: 0 <= i < |g.shu| ==> g.shu[i].level == Shu
    requires forall i :: 0 <= i < |g.ha| ==> g.ha[i].level == Ha
    requires forall i :: 0 <= i < |g.ri| ==> g.ri[i].level == Ri
    ensures forall l, i :: 0 <= i < |Group(g, l)| ==> Group(g, l)[i].level == l
  {
  }
  /** A sequence of nine is its three thirds laid end to end. */
  lemma ThirdsJoin<T>(s: seq<T>)
    requires |s| == 9
    ensures s[..3] + s[3..6] + s[6..] == s
  {
  }

  /** Each level's group is its slice of the catalogue. */
  lemma GroupsAreSlices()
    ensures Filter(ANGLES, AtLevel(Shu)) == ANGLES[..3]
    ensures Filter(ANGLES, AtLevel(Ha)) == ANGLES[3..6]
    ensures Filter(ANGLES, AtLevel(Ri)) == ANGLES[6..]
    ensures |ANGLES| == 9
  {
    GroupIsSlice(Shu, 0, 3);
    GroupIsSlice(Ha, 3, 6);
    GroupIsSlice(Ri, 6, 9);
    assert ANGLES[0..3] == ANGLES[..3];
    assert ANGLES[6..9] == ANGLES[6..];
  }

  /** The group of one level is the slice [lo, hi) of the catalogue holding that level. */
  lemma GroupIsSlice(level: CeremonyLevel, lo: nat, hi: nat)
    requires lo == 3 * LevelIndex(level) && hi == lo + 3
    ensures Filter(ANGLES, AtLevel(level)) == ANGLES[lo..hi]
  {
    AngleLevels();
    var p := AtLevel(level);
    assert forall i :: 0 <= i < |ANGLES| ==> (p(ANGLES[i]) <==> lo <= i < hi);
    FilterSlice(ANGLES, p, lo, hi);
  }

  /** Filtering a sequence where exactly the elements in [lo, hi) pass gives that slice. */
  lemma {:induction false} FilterSlice<T>(s: seq<T>, p: T -> bool, lo: nat, hi: nat)
    requires lo <= hi <= |s|
    requires forall i :: 0 <= i < |s| ==> (p(s[i]) <==> lo <= i < hi)
    ensures Filter(s, p) == s[lo..hi]
  {
    if lo == 0 {
      FilterPrefix(s, p, hi);
    } else {
      var t := s[1..];
      assert forall i :: 0 <= i < |t| ==> t[i] == s[i + 1];
      FilterSlice(t, p, lo - 1, hi - 1);
      assert t[lo - 1..hi - 1] == s[lo..hi];
    }
  }

  /** The groups of the levels up to and including `level`, laid end to end. */
  function GroupsUpTo(g: AnglesByLevel, level: CeremonyLevel): seq<AngleInfo>
  {
    match level
    case Shu => g.shu
    case Ha => g.shu + g.ha
    case Ri => g.shu + g.ha + g.ri
  }

  /** The angles a level unlocks are the groups of that level and the ones below it. */
  lemma ForLevelIsGroupsUpTo(level: CeremonyLevel)
    ensures GetAnglesForLevel(level) == GroupsUpTo(GetAnglesGroupedByLevel(), level)
  {
    var g := GetAnglesGroupedByLevel();
    PrefixesOfThirds(ANGLES, g.shu, g.ha, g.ri);
  }

  /** The prefixes of three, six and nine of a sequence split into thirds. */
  lemma PrefixesOfThirds<T>(s: seq<T>, a: seq<T>, b: seq<T>, c: seq<T>)
    requires |a| == 3 && |b| == 3 && |c| == 3 && a + b + c == s
    ensures s[..3] == a && s[..6] == a + b && s[..9] == a + b + c
  {
    assert (a + b + c)[..3] == a;
    assert (a + b + c)[..6] == a + b;
  }

  /** No angle sits in two different groups. */
  lemma GroupsAreDisjoint(l1: CeremonyLevel, l2: CeremonyLevel, a: AngleInfo)
    requires l1 != l2
    ensures !(a in Group(GetAnglesGroupedByLevel(), l1) && a in Group(GetAnglesGroupedByLevel(), l2))
  {
  }

  /**
   * Whether a team at `teamLevel` may use `angle`: its catalogue entry is among
   * the angles for that level. An id that is not in the catalogue is never
   * unlocked.
   */
  function IsAngleUnlocked(angle: AngleId, teamLevel: CeremonyLevel): (unlocked: bool)
    ensures unlocked <==> exists a :: a in GetAnglesForLevel(teamLevel) && a.id == angle
    ensures (forall a :: a in ANGLES ==> a.id != angle) ==> !unlocked
  {
    UnlockedIffListed(angle, teamLevel);
    match FindFirst(ANGLES, HasId(angle))
    case None => false
    case Some(angleInfo) =>
      var teamLevelIndex := LevelIndex(teamLevel);
      var angleLevelIndex := LevelIndex(angleInfo.level);
      angleLevelIndex <= teamLevelIndex
  }

  /** The find-then-compare of IsAngleUnlocked agrees with membership in the level's angle list. */
  lemma UnlockedIffListed(angle: AngleId, teamLevel: CeremonyLevel)
    ensures FindFirst(ANGLES, HasId(angle)).None? ==> forall a :: a in GetAnglesForLevel(teamLevel) ==> a.id != angle
    ensures FindFirst(ANGLES, HasId(angle)).Some? ==>
      (LevelIndex(FindFirst(ANGLES, HasId(angle)).value.level) <= LevelIndex(teamLevel) <==>
       exists a :: a in GetAnglesForLevel(teamLevel) && a.id == angle)
  {
    var k := 3 * (LevelIndex(teamLevel) + 1);
    AngleLevels();
    AngleIdsDistinct();
    FindInPrefix(ANGLES, angle, AtOrBelow(teamLevel), k);
  }

  /**
   * In a table with distinct ids whose entries passing p are exactly its first
   * k, finding an id and testing p agrees with looking the id up among those k.
   */
  lemma FindInPrefix(t: seq<AngleInfo>, angle: AngleId, p: AngleInfo -> bool, k: nat)
    requires k <= |t|
    requires forall i :: 0 <= i < |t| ==> (p(t[i]) <==> i < k)
    requires forall i, j :: 0 <= i < |t| && 0 <= j < |t| && t[i].id == t[j].id ==> i == j
    ensures FindFirst(t, HasId(angle)).None? ==> forall a :: a in t[..k] ==> a.id != angle
    ensures FindFirst(t, HasId(angle)).Some? ==>
      (p(FindFirst(t, HasId(angle)).value) <==> exists a :: a in t[..k] && a.id == angle)
  {
    var found := FindFirst(t, HasId(angle));
    if found.None? {
      forall a | a in t[..k] ensures a.id != angle {
        var i :| 0 <= i < k && t[i] == a;
        assert !HasId(angle)(t[i]);
      }
    } else {
      var i :| 0 <= i < |t| && t[i] == found.value && HasId(angle)(t[i]);
      if exists a :: a in t[..k] && a.id == angle {
        var a :| a in t[..k] && a.id == angle;
        var j :| 0 <= j < k && t[j] == a;
        assert i == j;
      }
      if p(found.value) {
        assert t[..k][i] == found.value;
      }
    }
  }

  /** An angle unlocked at one level stays unlocked at every higher level. */
  lemma UnlockIsMonotone(angle: AngleId, l1: CeremonyLevel, l2: CeremonyLevel)
    requires LevelIndex(l1) <= LevelIndex(l2)
    requires IsAngleUnlocked(angle, l1)
    ensures IsAngleUnlocked(angle, l2)
  {
    var a :| a in GetAnglesForLevel(l1) && a.id == angle;
    assert a in GetAnglesForLevel(l2);
  }

  /** The catalogue entry of an angle; the first entry (retro) for an unknown id. */
  function GetAngleInfo(angle: AngleId): (info: AngleInfo)
    ensures (exists a :: a in ANGLES && a.id == angle) ==> info in ANGLES && info.id == angle
    ensures (forall a :: a in ANGLES ==> a.id != angle) ==> info == ANGLES[0]
  {
    FindFirst(ANGLES, HasId(angle)).GetOr(ANGLES[0])
  }

  /** Every catalogue entry is what the lookup returns for its own id. */
  lemma AngleInfoRoundTrip(i: nat)
    requires i < |ANGLES|
    ensures GetAngleInfo(ANGLES[i].id) == ANGLES[i]
  {
    AngleIdsDistinct();
  }

  // ---------------------------------------------------------------------------
  // Level metadata
  // ---------------------------------------------------------------------------

  /** Display metadata of a level. */
  datatype LevelInfo = LevelInfo(
    id: CeremonyLevel, kanji: string, labelText: string, subtitle: string, description: string, questionDepth: string)

  const CEREMONY_LEVELS: seq<LevelInfo> := [
    LevelInfo(Shu, "\U{5B88}", "Shu", "Learn the basics",
      "Follow the structure. Build the habit. Trust the process.", "Basics"),
    LevelInfo(Ha, "\U{7834}", "Ha", "Adapt intentionally",
      "Question the rules. Experiment safely. Find what works for your team.", "Adaptive"),
    LevelInfo(Ri, "\U{96E2}", "Ri", "Mastery & own approach",
      "Transcend the framework. Create your own process. Lead by example.", "Mastery")
  ]

  /** The find of getLevelInfo: the entry describes `level`. */
  function IsLevel(level: CeremonyLevel): LevelInfo -> bool
  {
    (info: LevelInfo) => info.id == level
  }

  /**
   * The metadata of a level, falling back to the first entry when none
   * matches; every level has an entry, so the fallback is never taken.
   */
  function GetLevelInfo(level: CeremonyLevel): (info: LevelInfo)
    ensures info in CEREMONY_LEVELS && info.id == level
  {
    assert IsLevel(level)(CEREMONY_LEVELS[LevelIndex(level)]);
    FindFirst(CEREMONY_LEVELS, IsLevel(level)).GetOr(CEREMONY_LEVELS[0])
  }

  // ---------------------------------------------------------------------------
  // Unlock requirements
  // ---------------------------------------------------------------------------

  /** A team's progress towards the next level, as the level evaluator reports it. */
  datatype LevelProgress = LevelProgress(
    sessions30d: int,
    sessions45d: int,
    sessionsTotal: int,
    followupsCount: int,
    uniqueAngles: int,
    last2AvgScore: Option<real>,
    last3AvgScore: Option<real>,
    last2Participation: Option<real>,
    last3Participation: Option<real>,
    daysSinceLastSession: Option<int>,
    canUnlockHa: bool,
    canUnlockRi: bool)

  /**
   * A value shown next to a requirement: a number, a literal text, a score
   * rendered with one decimal, or a whole percentage.
   */
  datatype Shown = Number(n: int) | Text(s: string) | OneDecimal(x: real) | Percent(p: int)

  /** One line of the unlock checklist. */
  datatype UnlockRequirement = UnlockRequirement(key: string, labelText: string, met: bool, current: Shown, required: Shown)

  /** The placeholder shown for a missing value. */
  const DASH: string := "\U{2014}"

  /** `(x || 0)`: a missing score or rate counts as 0. */
  function OrZero(x: Option<real>): real
  {
    x.GetOr(0.0)
  }

  /** `x?.toFixed(1) || '—'`. */
  function ScoreShown(score: Option<real>): Shown
  {
    match score
    case None => Text(DASH)
    case Some(s) => OneDecimal(s)
  }

  /** `x ? `${Math.round(x * 100)}%` : '—'`: a zero rate is falsy and shows the dash too. */
  function ParticipationShown(rate: Option<real>): Shown
  {
    match rate
    case None => Text(DASH)
    case Some(r) => if r == 0.0 then Text(DASH) else Percent(JsMath.Round(r * 100.0))
  }

  /** The keys of a checklist, in order. */
  function Keys(reqs: seq<UnlockRequirement>): seq<string>
  {
    seq(|reqs|, i requires 0 <= i < |reqs| => reqs[i].key)
  }

  /**
   * The checklist for leaving `currentLevel`: three requirements at Shu, six
   * at Ha, none at Ri. A missing score or participation counts as zero.
   */
  function GetUnlockRequirements(currentLevel: CeremonyLevel, progress: LevelProgress): (reqs: seq<UnlockRequirement>)
    ensures currentLevel == Ri <==> reqs == []
    ensures currentLevel == Shu ==>
      && Keys(reqs) == ["sessions", "score", "participation"]
      && (reqs[0].met <==> progress.sessions30d >= 3)
      && (reqs[1].met <==> OrZero(progress.last2AvgScore) >= 3.2)
      && (reqs[2].met <==> OrZero(progress.last2Participation) >= 0.6)
    ensures currentLevel == Ha ==>
      && Keys(reqs) == ["total_sessions", "diversity", "followups", "recency", "score", "participation"]
      && (reqs[0].met <==> progress.sessionsTotal >= 6)
      && (reqs[1].met <==> progress.uniqueAngles >= 3)
      && (reqs[2].met <==> progress.followupsCount >= 4)
      && (reqs[3].met <==> progress.sessions45d >= 3)
      && (reqs[4].met <==> OrZero(progress.last3AvgScore) >= 3.5)
      && (reqs[5].met <==> OrZero(progress.last3Participation) >= 0.7)
  {
    match currentLevel
    case Shu =>
      [
        UnlockRequirement("sessions", "3 sessions in 30 days",
          progress.sessions30d >= 3, Number(progress.sessions30d), Number(3)),
        UnlockRequirement("score", "Avg score \U{2265} 3.2",
          OrZero(progress.last2AvgScore) >= 3.2, ScoreShown(progress.last2AvgScore), Text("3.2")),
        UnlockRequirement("participation", "Participation \U{2265} 60%",
          OrZero(progress.last2Participation) >= 0.60, ParticipationShown(progress.last2Participation), Text("60%"))
      ]
    case Ha =>
      [
        UnlockRequirement("total_sessions", "6 total sessions",
          progress.sessionsTotal >= 6, Number(progress.sessionsTotal), Number(6)),
        UnlockRequirement("diversity", "3 different ceremony types",
          progress.uniqueAngles >= 3, Number(progress.uniqueAngles), Number(3)),
        UnlockRequirement("followups", "4 sessions with follow-up",
          progress.followupsCount >= 4, Number(progress.followupsCount), Number(4)),
        UnlockRequirement("recency", "3 sessions in 45 days",
          progress.sessions45d >= 3, Number(progress.sessions45d), Number(3)),
        UnlockRequirement("score", "Avg score \U{2265} 3.5",
          OrZero(progress.last3AvgScore) >= 3.5, ScoreShown(progress.last3AvgScore), Text("3.5")),
        UnlockRequirement("participation", "Participation \U{2265} 70%",
          OrZero(progress.last3Participation) >= 0.70, ParticipationShown(progress.last3Participation), Text("70%"))
      ]
    case Ri =>
      []
  }

  /** A missing score or participation never meets its requirement. */
  lemma MissingValuesAreUnmet(currentLevel: CeremonyLevel, progress: LevelProgress)
    ensures currentLevel == Shu && progress.last2AvgScore.None? ==>
      !GetUnlockRequirements(currentLevel, progress)[1].met
    ensures currentLevel == Shu && progress.last2Participation.None? ==>
      !GetUnlockRequirements(currentLevel, progress)[2].met
    ensures currentLevel == Ha && progress.last3AvgScore.None? ==>
      !GetUnlockRequirements(currentLevel, progress)[4].met
    ensures currentLevel == Ha && progress.last3Participation.None? ==>
      !GetUnlockRequirements(currentLevel, progress)[5].met
  {
  }

  /** `q` is at least as far along as `p` on every measure the checklist reads. */
  predicate AtLeastAsFar(q: LevelProgress, p: LevelProgress)
  {
    && q.sessions30d >= p.sessions30d
    && q.sessions45d >= p.sessions45d
    && q.sessionsTotal >= p.sessionsTotal
    && q.followupsCount >= p.followupsCount
    && q.uniqueAngles >= p.uniqueAngles
    && OrZero(q.last2AvgScore) >= OrZero(p.last2AvgScore)
    && OrZero(q.last3AvgScore) >= OrZero(p.last3AvgScore)
    && OrZero(q.last2Participation) >= OrZero(p.last2Participation)
    && OrZero(q.last3Participation) >= OrZero(p.last3Participation)
  }

  /** More progress never turns a met requirement into an unmet one. */
  lemma MetIsMonotone(currentLevel: CeremonyLevel, p: LevelProgress, q: LevelProgress)
    requires AtLeastAsFar(q, p)
    ensures |GetUnlockRequirements(currentLevel, q)| == |GetUnlockRequirements(currentLevel, p)|
    ensures forall i :: 0 <= i < |GetUnlockRequirements(currentLevel, p)| ==>
      GetUnlockRequirements(currentLevel, p)[i].met ==> GetUnlockRequirements(currentLevel, q)[i].met
  {
  }

  /** Where a requirement compares two numbers, it is met exactly when the current one reaches the required one. */
  lemma NumericRequirementsAgree(currentLevel: CeremonyLevel, progress: LevelProgress, i: nat)
    requires i < |GetUnlockRequirements(currentLevel, progress)|
    requires GetUnlockRequirements(currentLevel, progress)[i].current.Number?
    requires GetUnlockRequirements(currentLevel, progress)[i].required.Number?
    ensures GetUnlockRequirements(currentLevel, progress)[i].met <==>
      GetUnlockRequirements(currentLevel, progress)[i].current.n >= GetUnlockRequirements(currentLevel, progress)[i].required.n
  {
  }
}
