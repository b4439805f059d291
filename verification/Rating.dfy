/** Grading a service by the published method (internal/catalog/rating.go): checking the
    rules file, the score, the band and the ceilings. Percentages are exact here. */
module Rating {

  datatype Criterion = Criterion(key: string, title: string)

  datatype Band = Band(grade: string, minPercent: real)

  datatype Ceiling = Ceiling(key: string, maxGrade: string, minUnknown: int)

  datatype Rules = Rules(criteria: seq<Criterion>, points: map<string, int>, bands: seq<Band>, caps: seq<Ceiling>,
                         kinds: map<string, string>)

  const WORST := 4

  /** The place of a letter, best first, or -1. */
  function GradeIndex(g: string): (i: int)
    ensures -1 <= i <= WORST
    ensures i >= 0 ==> g == ["A", "B", "C", "D", "F"][i]
    ensures i < 0 ==> g !in ["A", "B", "C", "D", "F"]
  {
    if g == "A" then 0 else if g == "B" then 1 else if g == "C" then 2 else if g == "D" then 3
    else if g == "F" then 4 else -1
  }

  const PROHIBITED := "container_prohibited"
  const POOR_RECORD := "poor_payout_or_safety"
  const THIN := "thin_evidence"

  predicate KnownCap(key: string): (known: bool)
    ensures known <==> key in ["container_prohibited", "poor_payout_or_safety", "thin_evidence"]
  {
    key == PROHIBITED || key == POOR_RECORD || key == THIN
  }

  // ---------------------------------------------------------------------
  // Which rules are accepted.
  // ---------------------------------------------------------------------

  predicate CriteriaSound(criteria: seq<Criterion>) {
    && criteria != []
    && (forall c :: c in criteria ==> c.key != "" && c.title != "")
    && (forall i, j :: 0 <= i < j < |criteria| ==> criteria[i].key != criteria[j].key)
  }

  /** The bands run from the highest threshold down. */
  predicate BandsSound(bands: seq<Band>) {
    && bands != []
    && (forall b :: b in bands ==> GradeIndex(b.grade) >= 0)
    && (forall i, j :: 0 <= i < j < |bands| ==> bands[i].minPercent > bands[j].minPercent)
  }

  predicate CapSound(c: Ceiling) {
    KnownCap(c.key) && GradeIndex(c.maxGrade) >= 0 && (c.key == THIN ==> c.minUnknown > 0)
  }

  predicate PointsSound(points: map<string, int>) {
    && (forall v :: v in points ==> points[v] >= 0)
    && "good" in points && "fair" in points && "poor" in points && "unknown" in points
  }

  predicate Acceptable(rules: Rules) {
    && CriteriaSound(rules.criteria) && BandsSound(rules.bands)
    && (forall c :: c in rules.caps ==> CapSound(c))
    && PointsSound(rules.points) && rules.kinds != map[]
  }

  method CheckCriteria(criteria: seq<Criterion>) returns (ok: bool)
    ensures ok <==> CriteriaSound(criteria)
  {
    if |criteria| == 0 {
      return false;
    }
    var seen: set<string> := {};
    for i := 0 to |criteria|
      invariant forall k :: 0 <= k < i ==> criteria[k].key != "" && criteria[k].title != ""
      invariant forall key :: key in seen <==> exists k :: 0 <= k < i && criteria[k].key == key
      invariant forall k, l :: 0 <= k < l < i ==> criteria[k].key != criteria[l].key
    {
      var c := criteria[i];
      if c.key == "" || c.title == "" || c.key in seen {
        assert c in criteria;
        return false;
      }
      seen := seen + {c.key};
    }
    return true;
  }

  /** Only neighbours are compared; that is enough. */
  method CheckBands(bands: seq<Band>) returns (ok: bool)
    ensures ok <==> BandsSound(bands)
  {
    if |bands| == 0 {
      return false;
    }
    for i := 0 to |bands|
      invariant forall k :: 0 <= k < i ==> GradeIndex(bands[k].grade) >= 0
      invariant forall k, l :: 0 <= k < l < i ==> bands[k].minPercent > bands[l].minPercent
    {
      var b := bands[i];
      if GradeIndex(b.grade) < 0 {
        assert b in bands;
        return false;
      }
      if i > 0 && b.minPercent >= bands[i - 1].minPercent {
        return false;
      }
    }
    return true;
  }

  method CheckCaps(caps: seq<Ceiling>) returns (ok: bool)
    ensures ok <==> forall c :: c in caps ==> CapSound(c)
  {
    for i := 0 to |caps|
      invariant forall k :: 0 <= k < i ==> CapSound(caps[k])
    {
      var c := caps[i];
      if !KnownCap(c.key) || GradeIndex(c.maxGrade) < 0 || (c.key == THIN && c.minUnknown <= 0) {
        assert c in caps;
        return false;
      }
    }
    return true;
  }

  method ParseRatingRules(rules: Rules) returns (ok: bool)
    ensures ok <==> Acceptable(rules)
  {
    ok := CheckCriteria(rules.criteria);
    if ok {
      ok := CheckBands(rules.bands);
    }
    if ok {
      ok := CheckCaps(rules.caps);
    }
    ok := ok && (forall v :: v in rules.points ==> rules.points[v] >= 0);
    ok := ok && "good" in rules.points && "fair" in rules.points && "poor" in rules.points && "unknown" in rules.points;
    ok := ok && |rules.kinds| > 0;
  }

  // ---------------------------------------------------------------------
  // Grading one service.
  // ---------------------------------------------------------------------

  /** A criterion without a verdict is unknown. */
  function Verdict(verdicts: map<string, string>, key: string): string {
    if key in verdicts && verdicts[key] != "" then verdicts[key] else "unknown"
  }

  function Worth(points: map<string, int>, verdict: string): int {
    if verdict in points then points[verdict] else 0
  }

  function Score(rules: Rules, verdicts: map<string, string>, n: nat): int
    requires n <= |rules.criteria|
  {
    if n == 0 then 0
    else Score(rules, verdicts, n - 1) + Worth(rules.points, Verdict(verdicts, rules.criteria[n - 1].key))
  }

  function Unknowns(rules: Rules, verdicts: map<string, string>, n: nat): nat
    requires n <= |rules.criteria|
  {
    if n == 0 then 0
    else Unknowns(rules, verdicts, n - 1)
         + (if Verdict(verdicts, rules.criteria[n - 1].key) == "unknown" then 1 else 0)
  }

  /** The best verdict's points, and 0 at least. */
  ghost predicate IsBest(points: map<string, int>, best: int) {
    && best >= 0
    && (forall v :: v in points ==> points[v] <= best)
    && (best == 0 || exists v :: v in points && points[v] == best)
  }

  lemma {:induction false} BestExists(points: map<string, int>, verdicts: set<string>) returns (best: int)
    requires verdicts <= points.Keys
    ensures best >= 0 && (forall v :: v in verdicts ==> points[v] <= best)
    ensures best == 0 || exists v :: v in verdicts && points[v] == best
  {
    if verdicts == {} {
      best := 0;
    } else {
      var one :| one in verdicts;
      best := BestExists(points, verdicts - {one});
      best := Worse(best, points[one]);
      forall v | v in verdicts
        ensures points[v] <= best
      {
        assert v == one || v in verdicts - {one};
      }
    }
  }

  lemma SomeBest(points: map<string, int>)
    ensures exists best :: IsBest(points, best)
  {
    var best := BestExists(points, points.Keys);
    assert IsBest(points, best);
  }

  /** The points of the best verdict; there is only one such number. */
  ghost function Best(points: map<string, int>): (best: int)
    ensures IsBest(points, best)
  {
    SomeBest(points);
    var best :| IsBest(points, best);
    best
  }

  function Percent(score: int, maximum: int): real {
    if maximum > 0 then 100.0 * score as real / maximum as real else 0.0
  }

  /** The letter of the first band, from `i` on, whose threshold is met. */
  function BandFrom(bands: seq<Band>, exact: real, i: nat): string
    requires i <= |bands|
    decreases |bands| - i
  {
    if i == |bands| then "F"
    else if exact >= bands[i].minPercent then bands[i].grade
    else BandFrom(bands, exact, i + 1)
  }

  /** A criterion the catalog may not have is as good as not poor. */
  predicate VerdictPoor(rules: Rules, verdicts: map<string, string>, key: string) {
    (exists c :: c in rules.criteria && c.key == key) && Verdict(verdicts, key) == "poor"
  }

  predicate Holds(rules: Rules, verdicts: map<string, string>, prohibited: bool, cap: Ceiling) {
    if cap.key == PROHIBITED then prohibited
    else if cap.key == POOR_RECORD then
      VerdictPoor(rules, verdicts, "payout_record") || VerdictPoor(rules, verdicts, "account_safety")
    else if cap.key == THIN then Unknowns(rules, verdicts, |rules.criteria|) >= cap.minUnknown
    else false
  }

  function Worse(a: int, b: int): int {
    if a < b then b else a
  }

  /** The worse of the band and the first `n` ceilings that hold. */
  function GradeUpTo(rules: Rules, verdicts: map<string, string>, prohibited: bool, band: int, n: nat): int
    requires n <= |rules.caps|
  {
    if n == 0 then band
    else
      var before := GradeUpTo(rules, verdicts, prohibited, band, n - 1);
      if Holds(rules, verdicts, prohibited, rules.caps[n - 1]) then Worse(before, GradeIndex(rules.caps[n - 1].maxGrade))
      else before
  }

  ghost function BandIndex(rules: Rules, verdicts: map<string, string>): int {
    var n := |rules.criteria|;
    GradeIndex(BandFrom(rules.bands, Percent(Score(rules, verdicts, n), Best(rules.points) * n), 0))
  }

  ghost function Graded(rules: Rules, verdicts: map<string, string>, prohibited: bool): int {
    GradeUpTo(rules, verdicts, prohibited, BandIndex(rules, verdicts), |rules.caps|)
  }

  method BestPoints(points: map<string, int>) returns (best: int)
    ensures best == Best(points)
  {
    best := 0;
    var left := points.Keys;
    while left != {}
      invariant left <= points.Keys && best >= 0
      invariant forall v :: v in points && v !in left ==> points[v] <= best
      invariant best == 0 || exists v :: v in points && points[v] == best
      decreases left
    {
      var v :| v in left;
      best := if best < points[v] then points[v] else best;
      left := left - {v};
    }
  }

  method FirstBand(bands: seq<Band>, exact: real) returns (band: string)
    ensures band == BandFrom(bands, exact, 0)
  {
    band := "F";
    for i := 0 to |bands|
      invariant band == "F"
      invariant BandFrom(bands, exact, 0) == BandFrom(bands, exact, i)
    {
      if exact >= bands[i].minPercent {
        return bands[i].grade;
      }
    }
  }

  /** The verdicts of the first `n` criteria, by key. */
  function Verdicts(criteria: seq<Criterion>, verdicts: map<string, string>, n: nat): map<string, string>
    requires n <= |criteria|
  {
    if n == 0 then map[]
    else Verdicts(criteria, verdicts, n - 1)[criteria[n - 1].key := Verdict(verdicts, criteria[n - 1].key)]
  }

  lemma {:induction false} VerdictsAt(criteria: seq<Criterion>, verdicts: map<string, string>, n: nat, key: string)
    requires n <= |criteria|
    ensures key in Verdicts(criteria, verdicts, n) <==> exists k :: 0 <= k < n && criteria[k].key == key
    ensures key in Verdicts(criteria, verdicts, n) ==> Verdicts(criteria, verdicts, n)[key] == Verdict(verdicts, key)
  {
    if n > 0 {
      VerdictsAt(criteria, verdicts, n - 1, key);
    }
  }

  lemma PoorVerdicts(rules: Rules, verdicts: map<string, string>, key: string)
    ensures var byKey := Verdicts(rules.criteria, verdicts, |rules.criteria|);
            (key in byKey && byKey[key] == "poor") <==> VerdictPoor(rules, verdicts, key)
  {
    VerdictsAt(rules.criteria, verdicts, |rules.criteria|, key);
  }

  /** The verdicts of the criteria, their points and how many are unknown. */
  method Tally(rules: Rules, verdicts: map<string, string>) returns (byKey: map<string, string>, score: int, unknowns: nat)
    ensures score == Score(rules, verdicts, |rules.criteria|)
    ensures unknowns == Unknowns(rules, verdicts, |rules.criteria|)
    ensures forall key :: (key in byKey && byKey[key] == "poor") <==> VerdictPoor(rules, verdicts, key)
  {
    byKey, score, unknowns := map[], 0, 0;
    for i := 0 to |rules.criteria|
      invariant score == Score(rules, verdicts, i) && unknowns == Unknowns(rules, verdicts, i)
      invariant byKey == Verdicts(rules.criteria, verdicts, i)
    {
      var key := rules.criteria[i].key;
      var v := if key in verdicts then verdicts[key] else "";
      if v == "" {
        v := "unknown";
      }
      byKey := byKey[key := v];
      score := score + (if v in rules.points then rules.points[v] else 0);
      if v == "unknown" {
        unknowns := unknowns + 1;
      }
    }
    forall key {
      PoorVerdicts(rules, verdicts, key);
    }
  }

  /** Which ceilings are reported: those that hold and lower the grade the score earned. */
  function Reported(rules: Rules, verdicts: map<string, string>, prohibited: bool, band: int, n: nat): seq<Ceiling>
    requires n <= |rules.caps|
  {
    if n == 0 then []
    else
      var cap := rules.caps[n - 1];
      Reported(rules, verdicts, prohibited, band, n - 1)
      + (if Holds(rules, verdicts, prohibited, cap) && GradeIndex(cap.maxGrade) > band then [cap] else [])
  }

  /** One ceiling: whether it holds for these verdicts. */
  method CeilingHolds(rules: Rules, verdicts: map<string, string>, prohibited: bool, byKey: map<string, string>,
                      unknowns: nat, c: Ceiling) returns (holds: bool)
    requires unknowns == Unknowns(rules, verdicts, |rules.criteria|)
    requires forall key :: (key in byKey && byKey[key] == "poor") <==> VerdictPoor(rules, verdicts, key)
    ensures holds <==> Holds(rules, verdicts, prohibited, c)
  {
    holds := false;
    if c.key == PROHIBITED {
      holds := prohibited;
    } else if c.key == POOR_RECORD {
      holds := ("payout_record" in byKey && byKey["payout_record"] == "poor")
               || ("account_safety" in byKey && byKey["account_safety"] == "poor");
    } else if c.key == THIN {
      holds := unknowns >= c.minUnknown;
    }
  }

  method GradeService(rules: Rules, verdicts: map<string, string>, prohibited: bool)
    returns (grade: string, caps: seq<Ceiling>)
    ensures GradeIndex(grade) == Graded(rules, verdicts, prohibited)
    ensures caps == Reported(rules, verdicts, prohibited, BandIndex(rules, verdicts), |rules.caps|)
  {
    var byKey, score, unknowns := Tally(rules, verdicts);
    var best := BestPoints(rules.points);
    var maximum := best * |rules.criteria|;
    var exact := 0.0;
    if maximum > 0 {
      exact := 100.0 * score as real / maximum as real;
    }
    var band := FirstBand(rules.bands, exact);
    grade, caps := band, [];
    assert GradeIndex(band) == BandIndex(rules, verdicts);
    for i := 0 to |rules.caps|
      invariant GradeIndex(grade) == GradeUpTo(rules, verdicts, prohibited, GradeIndex(band), i)
      invariant GradeIndex(grade) >= GradeIndex(band)
      invariant caps == Reported(rules, verdicts, prohibited, GradeIndex(band), i)
    {
      var c := rules.caps[i];
      var holds := CeilingHolds(rules, verdicts, prohibited, byKey, unknowns, c);
      if holds && GradeIndex(c.maxGrade) > GradeIndex(band) {
        caps := caps + [c];
        if GradeIndex(c.maxGrade) > GradeIndex(grade) {
          grade := c.maxGrade;
        }
      }
    }
  }

  // ---------------------------------------------------------------------
  // The grade is the worse of the band and the ceilings that hold, in whatever order the
  // ceilings are listed.
  // ---------------------------------------------------------------------

  lemma {:induction false} GradeIsTheWorst(rules: Rules, verdicts: map<string, string>, prohibited: bool, band: int, n: nat)
    requires n <= |rules.caps|
    ensures var grade := GradeUpTo(rules, verdicts, prohibited, band, n);
            && band <= grade
            && (forall i :: 0 <= i < n && Holds(rules, verdicts, prohibited, rules.caps[i])
                  ==> GradeIndex(rules.caps[i].maxGrade) <= grade)
            && (grade == band || exists i :: 0 <= i < n && Holds(rules, verdicts, prohibited, rules.caps[i])
                                             && GradeIndex(rules.caps[i].maxGrade) == grade)
  {
    if n > 0 {
      GradeIsTheWorst(rules, verdicts, prohibited, band, n - 1);
    }
  }

  // ---------------------------------------------------------------------
  // The published method, in the verdicts and the letters themselves.
  // ---------------------------------------------------------------------

  /** The first `n` criteria with a verdict; one that was not given is unknown. */
  ghost function WithVerdict(rules: Rules, verdicts: map<string, string>, n: nat, v: string): set<nat>
    requires n <= |rules.criteria|
  {
    set i: nat | i < n &&
      (var key := rules.criteria[i].key;
       (key in verdicts && verdicts[key] == v) || (v == "unknown" && (key !in verdicts || verdicts[key] == "")))
  }

  lemma OneMoreVerdict(rules: Rules, verdicts: map<string, string>, n: nat, v: string)
    requires n < |rules.criteria| && v != ""
    ensures |WithVerdict(rules, verdicts, n + 1, v)|
         == |WithVerdict(rules, verdicts, n, v)| + (if Verdict(verdicts, rules.criteria[n].key) == v then 1 else 0)
  {
    var before, after := WithVerdict(rules, verdicts, n, v), WithVerdict(rules, verdicts, n + 1, v);
    assert after == if Verdict(verdicts, rules.criteria[n].key) == v then before + {n} else before;
  }

  lemma {:induction false} UnknownsAreCounted(rules: Rules, verdicts: map<string, string>, n: nat)
    requires n <= |rules.criteria|
    ensures Unknowns(rules, verdicts, n) == |WithVerdict(rules, verdicts, n, "unknown")|
  {
    if n == 0 {
      assert WithVerdict(rules, verdicts, 0, "unknown") == {};
    } else {
      UnknownsAreCounted(rules, verdicts, n - 1);
      OneMoreVerdict(rules, verdicts, n - 1, "unknown");
    }
  }

  /** The score: each verdict's points, as often as it was given. */
  ghost function PointsGiven(rules: Rules, verdicts: map<string, string>, n: nat, v: string): int
    requires n <= |rules.criteria|
  {
    Worth(rules.points, v) * |WithVerdict(rules, verdicts, n, v)|
  }

  lemma OneMorePoints(rules: Rules, verdicts: map<string, string>, n: nat, v: string)
    requires n < |rules.criteria| && v != ""
    ensures PointsGiven(rules, verdicts, n + 1, v)
         == PointsGiven(rules, verdicts, n, v)
            + (if Verdict(verdicts, rules.criteria[n].key) == v then Worth(rules.points, v) else 0)
  {
    OneMoreVerdict(rules, verdicts, n, v);
    OneMoreTimes(Worth(rules.points, v), |WithVerdict(rules, verdicts, n, v)|);
  }

  lemma {:induction false} ScoreIsCounted(rules: Rules, verdicts: map<string, string>, n: nat)
    requires n <= |rules.criteria| && forall i :: 0 <= i < n ==> KnownVerdict(Verdict(verdicts, rules.criteria[i].key))
    ensures Score(rules, verdicts, n)
         == PointsGiven(rules, verdicts, n, "good") + PointsGiven(rules, verdicts, n, "fair")
            + PointsGiven(rules, verdicts, n, "poor") + PointsGiven(rules, verdicts, n, "unknown")
  {
    if n == 0 {
      NoPoints(rules, verdicts, "good");
      NoPoints(rules, verdicts, "fair");
      NoPoints(rules, verdicts, "poor");
      NoPoints(rules, verdicts, "unknown");
    } else {
      ScoreIsCounted(rules, verdicts, n - 1);
      OneMorePoints(rules, verdicts, n - 1, "good");
      OneMorePoints(rules, verdicts, n - 1, "fair");
      OneMorePoints(rules, verdicts, n - 1, "poor");
      OneMorePoints(rules, verdicts, n - 1, "unknown");
    }
  }

  lemma NoPoints(rules: Rules, verdicts: map<string, string>, v: string)
    ensures PointsGiven(rules, verdicts, 0, v) == 0
  {
    assert WithVerdict(rules, verdicts, 0, v) == {};
  }

  /** When a ceiling applies: a prohibited service, a poor record, or too little known. */
  ghost predicate Applies(rules: Rules, verdicts: map<string, string>, prohibited: bool, cap: Ceiling) {
    || (cap.key == "container_prohibited" && prohibited)
    || (cap.key == "poor_payout_or_safety" &&
          exists c :: c in rules.criteria && c.key in ["payout_record", "account_safety"]
                      && c.key in verdicts && verdicts[c.key] == "poor")
    || (cap.key == "thin_evidence" && |WithVerdict(rules, verdicts, |rules.criteria|, "unknown")| >= cap.minUnknown)
  }

  lemma HoldsIsApplies(rules: Rules, verdicts: map<string, string>, prohibited: bool, cap: Ceiling)
    ensures Holds(rules, verdicts, prohibited, cap) <==> Applies(rules, verdicts, prohibited, cap)
  {
    UnknownsAreCounted(rules, verdicts, |rules.criteria|);
  }

  /** THE GRADE. The letter the score earned, or the worst ceiling that applies, whichever is
      worse; a ceiling is reported exactly when it applies and is worse than the score's letter. */
  lemma {:induction false} GradeIs(rules: Rules, verdicts: map<string, string>, prohibited: bool)
    ensures var grade, band := Graded(rules, verdicts, prohibited), BandIndex(rules, verdicts);
            && band <= grade
            && (forall cap :: cap in rules.caps && Applies(rules, verdicts, prohibited, cap) ==> GradeIndex(cap.maxGrade) <= grade)
            && (grade == band || exists cap :: cap in rules.caps && Applies(rules, verdicts, prohibited, cap)
                                               && GradeIndex(cap.maxGrade) == grade)
            && forall cap :: cap in Reported(rules, verdicts, prohibited, band, |rules.caps|)
                             <==> cap in rules.caps && Applies(rules, verdicts, prohibited, cap) && GradeIndex(cap.maxGrade) > band
  {
    var band := BandIndex(rules, verdicts);
    GradeIsTheWorst(rules, verdicts, prohibited, band, |rules.caps|);
    forall cap
      ensures Holds(rules, verdicts, prohibited, cap) <==> Applies(rules, verdicts, prohibited, cap)
    {
      HoldsIsApplies(rules, verdicts, prohibited, cap);
    }
    ReportedAre(rules, verdicts, prohibited, band, |rules.caps|);
    if i :| 0 <= i < |rules.caps| && Holds(rules, verdicts, prohibited, rules.caps[i])
            && GradeIndex(rules.caps[i].maxGrade) == Graded(rules, verdicts, prohibited) {
      assert rules.caps[i] in rules.caps;
    }
  }

  lemma {:induction false} ReportedAre(rules: Rules, verdicts: map<string, string>, prohibited: bool, band: int, n: nat)
    requires n <= |rules.caps|
    ensures forall cap :: cap in Reported(rules, verdicts, prohibited, band, n)
                          <==> cap in rules.caps[..n] && Holds(rules, verdicts, prohibited, cap) && GradeIndex(cap.maxGrade) > band
    ensures rules.caps[..|rules.caps|] == rules.caps
  {
    if n > 0 {
      ReportedAre(rules, verdicts, prohibited, band, n - 1);
      assert rules.caps[..n] == rules.caps[..n - 1] + [rules.caps[n - 1]];
    }
  }

  /** The letter the score earns: that of the first band its share of the best score meets. */
  lemma ScoreEarns(rules: Rules, verdicts: map<string, string>) returns (i: nat)
    requires forall c :: c in rules.criteria ==> KnownVerdict(Verdict(verdicts, c.key))
    ensures var n, maximum := |rules.criteria|, Best(rules.points) * |rules.criteria|;
            var score := PointsGiven(rules, verdicts, n, "good") + PointsGiven(rules, verdicts, n, "fair")
                         + PointsGiven(rules, verdicts, n, "poor") + PointsGiven(rules, verdicts, n, "unknown");
            && FallsAt(rules.bands, if maximum > 0 then 100.0 * score as real / maximum as real else 0.0, i)
            && BandIndex(rules, verdicts) == if i < |rules.bands| then GradeIndex(rules.bands[i].grade) else WORST
  {
    var n := |rules.criteria|;
    ScoreIsCounted(rules, verdicts, n);
    i := BandAt(rules.bands, Percent(Score(rules, verdicts, n), Best(rules.points) * n), 0);
  }

  /** Listing the ceilings in another order, or one of them twice, changes no grade. */
  lemma {:induction false} CeilingOrderIsIrrelevant(rules: Rules, caps: seq<Ceiling>, verdicts: map<string, string>, prohibited: bool,
                                 band: int)
    requires forall c :: c in rules.caps <==> c in caps
    ensures var other := rules.(caps := caps);
            GradeUpTo(rules, verdicts, prohibited, band, |rules.caps|)
            == GradeUpTo(other, verdicts, prohibited, band, |caps|)
  {
    var other := rules.(caps := caps);
    NoWorse(rules, other, verdicts, verdicts, prohibited, band, band);
    NoWorse(other, rules, verdicts, verdicts, prohibited, band, band);
  }

  lemma HoldsIgnoresOrder(rules: Rules, other: Rules, verdicts: map<string, string>, prohibited: bool, cap: Ceiling)
    requires other.criteria == rules.criteria
    ensures Holds(rules, verdicts, prohibited, cap) <==> Holds(other, verdicts, prohibited, cap)
  {
    UnknownsIgnoreCaps(rules, other, verdicts, |rules.criteria|);
  }

  lemma {:induction false} UnknownsIgnoreCaps(rules: Rules, other: Rules, verdicts: map<string, string>, n: nat)
    requires other.criteria == rules.criteria && n <= |rules.criteria|
    ensures Unknowns(rules, verdicts, n) == Unknowns(other, verdicts, n)
  {
    if n > 0 {
      UnknownsIgnoreCaps(rules, other, verdicts, n - 1);
    }
  }

  /** A grade is no worse than another when its band is no worse and every ceiling that holds
      for it holds for the other. */
  lemma NoWorse(rules: Rules, other: Rules, v: map<string, string>, w: map<string, string>, prohibited: bool,
                band: int, band': int)
    requires other.criteria == rules.criteria && band <= band'
    requires forall c :: c in rules.caps ==> c in other.caps
    requires forall c :: c in rules.caps && Holds(rules, v, prohibited, c) ==> Holds(rules, w, prohibited, c)
    ensures GradeUpTo(rules, v, prohibited, band, |rules.caps|) <= GradeUpTo(other, w, prohibited, band', |other.caps|)
  {
    GradeIsTheWorst(rules, v, prohibited, band, |rules.caps|);
    GradeIsTheWorst(other, w, prohibited, band', |other.caps|);
    var grade := GradeUpTo(rules, v, prohibited, band, |rules.caps|);
    if grade != band {
      var i :| 0 <= i < |rules.caps| && Holds(rules, v, prohibited, rules.caps[i])
               && GradeIndex(rules.caps[i].maxGrade) == grade;
      var c := rules.caps[i];
      assert c in other.caps;
      var j :| 0 <= j < |other.caps| && other.caps[j] == c;
      HoldsIgnoresOrder(rules, other, w, prohibited, c);
    }
  }

  // ---------------------------------------------------------------------
  // Better verdicts never make a grade worse.
  // ---------------------------------------------------------------------

  /** Verdict `w` is at least as good as `v`: poor and unknown are below fair, fair below good. */
  predicate AtLeast(w: string, v: string) {
    w == v || w == "good" || (w == "fair" && (v == "poor" || v == "unknown"))
  }

  predicate Raised(rules: Rules, v: map<string, string>, w: map<string, string>) {
    forall c :: c in rules.criteria ==> KnownVerdict(Verdict(v, c.key)) && AtLeast(Verdict(w, c.key), Verdict(v, c.key))
  }

  predicate KnownVerdict(v: string) {
    v == "good" || v == "fair" || v == "poor" || v == "unknown"
  }

  /** What the rules file promises and the check does not ask for. */
  predicate PointsRespectVerdicts(points: map<string, int>) {
    && Worth(points, "good") >= Worth(points, "fair")
    && Worth(points, "fair") >= Worth(points, "poor")
    && Worth(points, "fair") >= Worth(points, "unknown")
  }

  /** Some share from 0 to 100 is met by the `i`-th band and by none before it. */
  predicate InReach(bands: seq<Band>, i: nat)
    requires i < |bands|
  {
    bands[i].minPercent <= 100.0 && (i == 0 || bands[i - 1].minPercent > 0.0)
  }

  /** Among the bands in reach no letter improves down the list. */
  predicate BandsNeverImprove(bands: seq<Band>) {
    forall i, j :: 0 <= i < j < |bands| && InReach(bands, i) && InReach(bands, j)
      ==> GradeIndex(bands[i].grade) <= GradeIndex(bands[j].grade)
  }

  lemma {:induction false} ScoreRises(rules: Rules, v: map<string, string>, w: map<string, string>, n: nat)
    requires n <= |rules.criteria| && Raised(rules, v, w) && PointsRespectVerdicts(rules.points)
    ensures Score(rules, v, n) <= Score(rules, w, n)
    ensures Unknowns(rules, w, n) <= Unknowns(rules, v, n)
  {
    if n > 0 {
      ScoreRises(rules, v, w, n - 1);
      assert rules.criteria[n - 1] in rules.criteria;
    }
  }

  lemma PercentRises(a: int, b: int, maximum: int)
    requires a <= b
    ensures Percent(a, maximum) <= Percent(b, maximum)
  {
    if maximum > 0 {
      var x, y, m := 100.0 * a as real, 100.0 * b as real, maximum as real;
      assert y / m - x / m == (y - x) / m;
    }
  }

  lemma WorthIsBetween(points: map<string, int>, verdict: string)
    requires PointsSound(points)
    ensures 0 <= Worth(points, verdict) <= Best(points)
  {
  }

  lemma OneMoreTimes(a: int, n: int)
    ensures a * (n + 1) == a * n + a
  {
  }

  lemma {:induction false} ScoreIsBetween(rules: Rules, v: map<string, string>, n: nat)
    requires n <= |rules.criteria| && PointsSound(rules.points)
    ensures 0 <= Score(rules, v, n) <= Best(rules.points) * n
  {
    if n > 0 {
      ScoreIsBetween(rules, v, n - 1);
      WorthIsBetween(rules.points, Verdict(v, rules.criteria[n - 1].key));
      OneMoreTimes(Best(rules.points), n - 1);
    }
  }

  lemma PercentIsBetween(score: int, maximum: int)
    requires 0 <= score <= maximum
    ensures 0.0 <= Percent(score, maximum) <= 100.0
  {
    PercentRises(0, score, maximum);
    PercentRises(score, maximum, maximum);
  }

  /** Where a share falls: into the `i`-th band, or, with `i == |bands|`, into none. */
  ghost predicate FallsAt(bands: seq<Band>, share: real, i: nat) {
    && i <= |bands|
    && (forall k :: 0 <= k < i ==> share < bands[k].minPercent)
    && (i < |bands| ==> share >= bands[i].minPercent)
  }

  lemma {:induction false} BandAt(bands: seq<Band>, share: real, from: nat) returns (i: nat)
    requires from <= |bands| && forall k :: 0 <= k < from ==> share < bands[k].minPercent
    ensures from <= i && FallsAt(bands, share, i)
    ensures BandFrom(bands, share, from) == if i < |bands| then bands[i].grade else "F"
    decreases |bands| - from
  {
    if from == |bands| || share >= bands[from].minPercent {
      i := from;
    } else {
      i := BandAt(bands, share, from + 1);
    }
  }

  lemma BandIs(bands: seq<Band>, share: real, i: nat)
    requires i < |bands| && FallsAt(bands, share, i)
    ensures BandFrom(bands, share, 0) == bands[i].grade
  {
    var j := BandAt(bands, share, 0);
    assert !(i < j) && !(j < i);
  }

  lemma BandRises(bands: seq<Band>, a: real, b: real)
    requires 0.0 <= a <= b <= 100.0 && BandsNeverImprove(bands)
    ensures GradeIndex(BandFrom(bands, b, 0)) <= GradeIndex(BandFrom(bands, a, 0))
  {
    var i := BandAt(bands, b, 0);
    var j := BandAt(bands, a, 0);
    if i < j < |bands| {
      assert InReach(bands, i) && InReach(bands, j);
    }
  }

  lemma CeilingsRelax(rules: Rules, v: map<string, string>, w: map<string, string>, prohibited: bool, cap: Ceiling)
    requires Raised(rules, v, w) && PointsRespectVerdicts(rules.points)
    requires Holds(rules, w, prohibited, cap)
    ensures Holds(rules, v, prohibited, cap)
  {
    ScoreRises(rules, v, w, |rules.criteria|);
    if VerdictPoor(rules, w, "payout_record") {
      assert AtLeast(Verdict(w, "payout_record"), Verdict(v, "payout_record"));
    }
    if VerdictPoor(rules, w, "account_safety") {
      assert AtLeast(Verdict(w, "account_safety"), Verdict(v, "account_safety"));
    }
  }

  /** Raising any verdicts never worsens the grade, when the points follow the verdicts and
      the letters never improve down the bands in reach. */
  lemma {:induction false} GradeIsMonotone(rules: Rules, v: map<string, string>, w: map<string, string>, prohibited: bool)
    requires PointsSound(rules.points)
    requires Raised(rules, v, w) && PointsRespectVerdicts(rules.points) && BandsNeverImprove(rules.bands)
    ensures Graded(rules, w, prohibited) <= Graded(rules, v, prohibited)
  {
    var n, best := |rules.criteria|, Best(rules.points);
    ScoreRises(rules, v, w, n);
    PercentRises(Score(rules, v, n), Score(rules, w, n), best * n);
    ScoreIsBetween(rules, v, n);
    PercentIsBetween(Score(rules, v, n), best * n);
    ScoreIsBetween(rules, w, n);
    PercentIsBetween(Score(rules, w, n), best * n);
    BandRises(rules.bands, Percent(Score(rules, v, n), best * n), Percent(Score(rules, w, n), best * n));
    forall c | c in rules.caps && Holds(rules, w, prohibited, c)
      ensures Holds(rules, v, prohibited, c)
    {
      CeilingsRelax(rules, v, w, prohibited, c);
    }
    NoWorse(rules, rules, w, v, prohibited, BandIndex(rules, w), BandIndex(rules, v));
  }

  // ---------------------------------------------------------------------
  // Both conditions are needed, for any points and for any bands.
  // ---------------------------------------------------------------------

  /** Better verdicts earn a worse grade. */
  ghost predicate Punishes(rules: Rules, v: map<string, string>, w: map<string, string>, prohibited: bool) {
    Raised(rules, v, w) && Graded(rules, w, prohibited) > Graded(rules, v, prohibited)
  }

  const ONE_CRITERION := [Criterion("payout", "Payout")]

  function Only(verdict: string): map<string, string> {
    map["payout" := verdict]
  }

  function OneCriterion(points: map<string, int>, bands: seq<Band>): Rules {
    Rules(ONE_CRITERION, points, bands, [], map["con" := "a con"])
  }

  lemma OneCriterionIsAccepted(points: map<string, int>, bands: seq<Band>)
    requires PointsSound(points) && BandsSound(bands)
    ensures Acceptable(OneCriterion(points, bands))
  {
    assert ONE_CRITERION[0].title != "";
    assert "con" in OneCriterion(points, bands).kinds;
  }

  lemma OneCriterionGrade(points: map<string, int>, bands: seq<Band>, verdict: string)
    requires verdict != ""
    ensures Graded(OneCriterion(points, bands), Only(verdict), false)
         == GradeIndex(BandFrom(bands, Percent(Worth(points, verdict), Best(points)), 0))
  {
    var rules := OneCriterion(points, bands);
    assert Score(rules, Only(verdict), 1) == Score(rules, Only(verdict), 0) + Worth(points, verdict);
  }

  /** One criterion raised from `low` to `high` is punished when the shares fall so. */
  lemma OneCriterionPunishes(points: map<string, int>, bands: seq<Band>, low: string, high: string, i: nat, j: nat)
    requires PointsSound(points) && BandsSound(bands) && KnownVerdict(low) && KnownVerdict(high) && AtLeast(high, low)
    requires i < |bands| && FallsAt(bands, Percent(points[low], Best(points)), i)
    requires j < |bands| && FallsAt(bands, Percent(points[high], Best(points)), j)
    requires GradeIndex(bands[i].grade) < GradeIndex(bands[j].grade)
    ensures Acceptable(OneCriterion(points, bands))
    ensures Punishes(OneCriterion(points, bands), Only(low), Only(high), false)
  {
    OneCriterionIsAccepted(points, bands);
    OneCriterionGrade(points, bands, low);
    OneCriterionGrade(points, bands, high);
    BandIs(bands, Percent(points[low], Best(points)), i);
    BandIs(bands, Percent(points[high], Best(points)), j);
  }

  /** Accepted rules with these points and letters that never improve, which punish. */
  ghost predicate PointsPunish(points: map<string, int>, rules: Rules, v: map<string, string>, w: map<string, string>,
                               prohibited: bool) {
    Acceptable(rules) && rules.points == points && BandsNeverImprove(rules.bands) && Punishes(rules, v, w, prohibited)
  }

  /** A better verdict worth less is told apart by a threshold at the worse one's share. */
  lemma UnorderedPointsPunish(points: map<string, int>, low: string, high: string)
    requires PointsSound(points) && KnownVerdict(low) && KnownVerdict(high) && AtLeast(high, low)
    requires points[high] < points[low]
    ensures exists rules, v, w, prohibited :: PointsPunish(points, rules, v, w, prohibited)
  {
    var best := Best(points);
    var bands := [Band("A", Percent(points[low], best)), Band("B", 0.0)];
    PercentFalls(points[high], points[low], best);
    OneCriterionPunishes(points, bands, low, high, 0, 1);
    assert PointsPunish(points, OneCriterion(points, bands), Only(low), Only(high), false);
  }

  lemma PercentFalls(a: int, b: int, maximum: int)
    requires 0 <= a < b <= maximum
    ensures 0.0 <= Percent(a, maximum) < Percent(b, maximum)
  {
    var x, y, m := 100.0 * a as real, 100.0 * b as real, maximum as real;
    assert y / m - x / m == (y - x) / m;
  }

  /** EXACTLY THE POINTS THAT NEVER PUNISH. Points the check accepts never make a better
      verdict earn a worse grade, under any accepted bands whose letters do not improve, if and
      only if they follow the verdicts. */
  lemma {:induction false} PointsDecide(points: map<string, int>)
    requires PointsSound(points)
    ensures PointsRespectVerdicts(points)
       <==> !exists rules, v, w, prohibited :: PointsPunish(points, rules, v, w, prohibited)
  {
    if PointsRespectVerdicts(points) {
      if rules, v, w, prohibited :| PointsPunish(points, rules, v, w, prohibited) {
        GradeIsMonotone(rules, v, w, prohibited);
      }
    } else if points["good"] < points["fair"] {
      UnorderedPointsPunish(points, "fair", "good");
    } else if points["fair"] < points["poor"] {
      UnorderedPointsPunish(points, "poor", "fair");
    } else {
      UnorderedPointsPunish(points, "unknown", "fair");
    }
  }

  /** Accepted rules with these bands and points that follow the verdicts, which punish. */
  ghost predicate BandsPunish(bands: seq<Band>, rules: Rules, v: map<string, string>, w: map<string, string>,
                              prohibited: bool) {
    && Acceptable(rules) && rules.bands == bands && PointsRespectVerdicts(rules.points)
    && Punishes(rules, v, w, prohibited)
  }

  function Step(scale: nat): (step: real)
    requires scale > 0
    ensures step > 0.0
  {
    100.0 / scale as real
  }

  lemma NextPercent(points: nat, scale: nat)
    requires scale > 0
    ensures Percent(points + 1, scale) == Percent(points, scale) + Step(scale)
  {
  }

  /** Shares in steps hit any interval wider than a step, once one has reached its lower end. */
  lemma {:induction false} HitsInterval(lo: real, hi: real, scale: nat, reached: nat) returns (points: nat)
    requires scale > 0 && Step(scale) < hi - lo && 0.0 <= lo <= Percent(reached, scale)
    ensures points <= reached && lo <= Percent(points, scale) < hi
  {
    points := reached;
    if reached > 0 {
      NextPercent(reached - 1, scale);
      if lo <= Percent(reached - 1, scale) {
        points := HitsInterval(lo, hi, scale, reached - 1);
      }
    }
  }

  lemma Divided(x: real, m: real)
    requires m > 0.0
    ensures x / m * m == x
  {
  }

  lemma TimesMore(m: real, a: real, b: real)
    requires m > 0.0
    ensures a < b <==> a * m < b * m
  {
    if a < b {
      assert (b - a) * m > 0.0;
    } else if a > b {
      assert (a - b) * m > 0.0;
    }
  }

  /** Of two ways to write a hundred as a product, the larger factor has the smaller partner. */
  lemma LargerFactor(x: real, w: real, m: real, y: real)
    requires w > 0.0 && m > 0.0 && x < m && x * w == 100.0 && y * m == 100.0
    ensures y < w
  {
    TimesMore(w, x, m);
    TimesMore(m, y, w);
  }

  /** A scale whose step is narrower than both. */
  lemma FineEnough(a: real, b: real) returns (scale: nat)
    requires a > 0.0 && b > 0.0
    ensures scale > 0 && Step(scale) < a && Step(scale) < b
  {
    var least := if a < b then a else b;
    scale := (100.0 / least).Floor + 1;
    Divided(100.0, least);
    Divided(100.0, scale as real);
    LargerFactor(100.0 / least, least, scale as real, Step(scale));
  }

  /** The upper end of what falls into the `i`-th band; nothing bounds the first. */
  function Above(bands: seq<Band>, i: nat): real
    requires i < |bands|
  {
    if i == 0 then 101.0 else bands[i - 1].minPercent
  }

  /** How wide the interval of shares is that falls into the `i`-th band. */
  function Width(bands: seq<Band>, i: nat): real
    requires i < |bands|
  {
    Above(bands, i) - (if bands[i].minPercent < 0.0 then 0.0 else bands[i].minPercent)
  }

  /** Any band in reach is hit by some share of a fine enough scale. */
  lemma HitsBand(bands: seq<Band>, i: nat, scale: nat) returns (points: nat)
    requires BandsSound(bands) && i < |bands| && InReach(bands, i) && scale > 0 && Step(scale) < Width(bands, i)
    ensures points <= scale && FallsAt(bands, Percent(points, scale), i)
  {
    var lo := if bands[i].minPercent < 0.0 then 0.0 else bands[i].minPercent;
    assert Percent(scale, scale) == 100.0;
    points := HitsInterval(lo, Above(bands, i), scale, scale);
  }

  function TwoShares(good: nat, fair: nat, scale: nat): map<string, int> {
    map["good" := good, "fair" := fair, "poor" := 0, "unknown" := 0, "scale" := scale]
  }

  lemma ScaleIsBest(good: nat, fair: nat, scale: nat)
    requires good <= scale && fair <= scale
    ensures PointsSound(TwoShares(good, fair, scale)) && Best(TwoShares(good, fair, scale)) == scale
  {
    var points := TwoShares(good, fair, scale);
    assert "scale" in points && points["scale"] == scale;
  }

  lemma PercentOrders(a: int, b: int, maximum: int)
    requires Percent(a, maximum) < Percent(b, maximum)
    ensures a < b
  {
    if b <= a {
      PercentRises(b, a, maximum);
    }
  }

  /** A letter that improves down the bands in reach is met by two shares. */
  lemma ImprovingBandsPunish(bands: seq<Band>, i: nat, j: nat)
    requires BandsSound(bands) && i < j < |bands| && InReach(bands, i) && InReach(bands, j)
    requires GradeIndex(bands[i].grade) > GradeIndex(bands[j].grade)
    ensures exists rules, v, w, prohibited :: BandsPunish(bands, rules, v, w, prohibited)
  {
    var scale := FineEnough(Width(bands, i), Width(bands, j));
    var good := HitsBand(bands, i, scale);
    var fair := HitsBand(bands, j, scale);
    PercentOrders(fair, good, scale);
    var points := TwoShares(good, fair, scale);
    ScaleIsBest(good, fair, scale);
    OneCriterionPunishes(points, bands, "fair", "good", j, i);
    assert BandsPunish(bands, OneCriterion(points, bands), Only("fair"), Only("good"), false);
  }

  /** EXACTLY THE BANDS THAT NEVER PUNISH. Accepted bands never give a better verdict a worse
      grade, under any accepted points that follow the verdicts, if and only if no letter
      improves down the bands that a share can reach. */
  lemma {:induction false} BandsDecide(bands: seq<Band>)
    requires BandsSound(bands)
    ensures BandsNeverImprove(bands)
       <==> !exists rules, v, w, prohibited :: BandsPunish(bands, rules, v, w, prohibited)
  {
    if BandsNeverImprove(bands) {
      if rules, v, w, prohibited :| BandsPunish(bands, rules, v, w, prohibited) {
        GradeIsMonotone(rules, v, w, prohibited);
      }
    } else {
      var i, j :| 0 <= i < j < |bands| && InReach(bands, i) && InReach(bands, j)
                  && GradeIndex(bands[i].grade) > GradeIndex(bands[j].grade);
      ImprovingBandsPunish(bands, i, j);
    }
  }
}
