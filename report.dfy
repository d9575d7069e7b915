/** The report `generateReport` derives from the dimension list and the personal information. */
module Report {
  import opened Results
  import opened Seqs
  import opened Dimensions
  import opened Lookups

  // ---------------------------------------------------------------- personal information

  datatype PersonalInfo = PersonalInfo(name: string, age: int, expectedLifespan: int)

  /** Why report generation was refused. */
  datatype ValidationError = IncompleteInfo | AgeNotBelowLifespan

  /**
   * The checks at the top of `generateReport`. An empty input field is `None`; a field holding
   * a number is `Some` of that number.
   */
  function Validate(name: string, age: Option<int>, expectedLifespan: Option<int>): (r: Result<PersonalInfo, ValidationError>)
    ensures r == Err(IncompleteInfo) <==> name == "" || age.None? || expectedLifespan.None?
    ensures r == Err(AgeNotBelowLifespan) <==>
      name != "" && age.Some? && expectedLifespan.Some? && age.value >= expectedLifespan.value
    ensures r.Ok? ==> && r.value.name == name && Some(r.value.age) == age
                      && Some(r.value.expectedLifespan) == expectedLifespan
                      && r.value.age < r.value.expectedLifespan
  {
    if name == "" || age.None? || expectedLifespan.None? then Err(IncompleteInfo)
    else if age.value >= expectedLifespan.value then Err(AgeNotBelowLifespan)
    else Ok(PersonalInfo(name, age.value, expectedLifespan.value))
  }

  // ---------------------------------------------------------------- average and balance level

  /** `dimensions.reduce((sum, dim) => sum + dim.rating, 0)`. */
  function RatingSum(dims: seq<Dimension>): int {
    if dims == [] then 0 else RatingSum(dims[..|dims| - 1]) + dims[|dims| - 1].rating
  }

  /** The mean rating, as an exact real number. */
  function Mean(dims: seq<Dimension>): real
    requires |dims| > 0
  {
    RatingSum(dims) as real / |dims| as real
  }

  /** A mean compares with a whole threshold exactly as the sum compares with threshold times count. */
  lemma MeanAtLeast(sum: int, n: int, k: int)
    requires n > 0
    ensures sum as real / n as real >= k as real <==> sum >= k * n
  {
    var x := sum as real / n as real;
    assert x * n as real == sum as real;
    assert (k * n) as real == k as real * n as real;
    if x >= k as real {
      assert x * n as real >= k as real * n as real;
    } else {
      assert x * n as real < k as real * n as real;
    }
  }

  datatype Balance = Excellent | Good | Fair | NeedsImprovement

  /** The label the report shows for each balance level. */
  function Label(b: Balance): (s: string)
    ensures s in ["优秀", "良好", "一般", "需要改善"]
  {
    match b
    case Excellent => "优秀"
    case Good => "良好"
    case Fair => "一般"
    case NeedsImprovement => "需要改善"
  }

  /** The balance level as `generateReport` picks it: the mean compared with 8, 6 and 4, each band closed at its lower end. */
  function MeanBand(mean: real): Balance {
    if mean >= 8.0 then Excellent
    else if mean >= 6.0 then Good
    else if mean >= 4.0 then Fair
    else NeedsImprovement
  }

  /**
   * The balance level of a dimension list, computed on the rating sum S and the count n:
   * S >= 8n, 6n <= S < 8n, 4n <= S < 6n, or less. An empty list has no mean (it is not a
   * number, and every comparison with it fails), so it falls in the lowest band.
   */
  function BalanceOf(dims: seq<Dimension>): Balance {
    var s, n := RatingSum(dims), |dims|;
    if n == 0 then NeedsImprovement
    else if s >= 8 * n then Excellent
    else if s >= 6 * n then Good
    else if s >= 4 * n then Fair
    else NeedsImprovement
  }

  /** Exactly one band applies, and each is an integer inequality between the sum and the count. */
  lemma BalanceBands(dims: seq<Dimension>)
    ensures var s, n, b := RatingSum(dims), |dims|, BalanceOf(dims);
      && (b == Excellent <==> n > 0 && s >= 8 * n)
      && (b == Good <==> n > 0 && 6 * n <= s < 8 * n)
      && (b == Fair <==> n > 0 && 4 * n <= s < 6 * n)
      && (b == NeedsImprovement <==> n == 0 || s < 4 * n)
  {
  }

  /** The sum-and-count form agrees with comparing the mean itself. */
  lemma BalanceIsMeanBand(dims: seq<Dimension>)
    ensures BalanceOf(dims) == if |dims| == 0 then NeedsImprovement else MeanBand(Mean(dims))
  {
    if |dims| > 0 {
      var s, n := RatingSum(dims), |dims|;
      MeanAtLeast(s, n, 8);
      MeanAtLeast(s, n, 6);
      MeanAtLeast(s, n, 4);
    }
  }

  /** Distinct levels get distinct labels, so the label alone tells the level. */
  lemma LabelInjective(a: Balance, b: Balance)
    ensures Label(a) == Label(b) <==> a == b
  {
  }

  /** The label the report shows, in terms of the rating sum S and the count n. */
  lemma LabelBands(dims: seq<Dimension>)
    ensures var s, n, l := RatingSum(dims), |dims|, Label(BalanceOf(dims));
      && (l == "优秀" <==> n > 0 && s >= 8 * n)
      && (l == "良好" <==> n > 0 && 6 * n <= s < 8 * n)
      && (l == "一般" <==> n > 0 && 4 * n <= s < 6 * n)
      && (l == "需要改善" <==> n == 0 || s < 4 * n)
  {
    BalanceBands(dims);
    var b := BalanceOf(dims);
    LabelInjective(b, Excellent);
    LabelInjective(b, Good);
    LabelInjective(b, Fair);
    LabelInjective(b, NeedsImprovement);
  }

  // ---------------------------------------------------------------- strengths and improvement areas

  predicate IsStrength(d: Dimension) {
    d.rating >= 8
  }

  /** Names of the dimensions rated 8 or higher, in list order. */
  function Strengths(dims: seq<Dimension>): seq<string> {
    Names(Filter(dims, IsStrength))
  }

  /** Names of the dimensions rated 4 or lower, in list order. */
  function AreasForImprovement(dims: seq<Dimension>): seq<string> {
    Names(Filter(dims, NeedsWork))
  }

  /** A name is a strength exactly when some dimension with that name is rated 8 or higher. */
  lemma StrengthsMembership(dims: seq<Dimension>, name: string)
    ensures name in Strengths(dims) <==> exists i :: 0 <= i < |dims| && dims[i].name == name && dims[i].rating >= 8
  {
    var kept := Filter(dims, IsStrength);
    FilterMembership(dims, IsStrength);
    if name in Strengths(dims) {
      var j :| 0 <= j < |kept| && kept[j].name == name;
      assert kept[j] in dims;
    }
    if exists i :: 0 <= i < |dims| && dims[i].name == name && dims[i].rating >= 8 {
      var i :| 0 <= i < |dims| && dims[i].name == name && dims[i].rating >= 8;
      var j :| 0 <= j < |kept| && kept[j] == dims[i];
      assert Strengths(dims)[j] == name;
    }
  }

  /** A name is an improvement area exactly when some dimension with that name is rated 4 or lower. */
  lemma AreasMembership(dims: seq<Dimension>, name: string)
    ensures name in AreasForImprovement(dims) <==> exists i :: 0 <= i < |dims| && dims[i].name == name && dims[i].rating <= 4
  {
    var kept := Filter(dims, NeedsWork);
    FilterMembership(dims, NeedsWork);
    if name in AreasForImprovement(dims) {
      var j :| 0 <= j < |kept| && kept[j].name == name;
      assert kept[j] in dims;
    }
    if exists i :: 0 <= i < |dims| && dims[i].name == name && dims[i].rating <= 4 {
      var i :| 0 <= i < |dims| && dims[i].name == name && dims[i].rating <= 4;
      var j :| 0 <= j < |kept| && kept[j] == dims[i];
      assert AreasForImprovement(dims)[j] == name;
    }
  }

  /** With distinct names no dimension is both a strength and an improvement area. */
  lemma StrengthsAreasDisjoint(dims: seq<Dimension>, name: string)
    requires DistinctNames(dims)
    ensures !(name in Strengths(dims) && name in AreasForImprovement(dims))
  {
    StrengthsMembership(dims, name);
    AreasMembership(dims, name);
  }

  /** Appending a dimension appends its name to the list it belongs to: both lists follow list order. */
  lemma ClassifyAppend(dims: seq<Dimension>, d: Dimension)
    ensures Strengths(dims + [d]) == Strengths(dims) + (if d.rating >= 8 then [d.name] else [])
    ensures AreasForImprovement(dims + [d]) == AreasForImprovement(dims) + (if d.rating <= 4 then [d.name] else [])
  {
    FilterAppend(dims, [d], IsStrength);
    FilterAppend(dims, [d], NeedsWork);
    assert Filter([d], IsStrength) == if d.rating >= 8 then [d] else [];
    assert Filter([d], NeedsWork) == if d.rating <= 4 then [d] else [];
    MapAppend(Filter(dims, IsStrength), Filter([d], IsStrength), (x: Dimension) => x.name);
    MapAppend(Filter(dims, NeedsWork), Filter([d], NeedsWork), (x: Dimension) => x.name);
  }

  // ---------------------------------------------------------------- the report

  /** What a generated report records. Dates, the correlation table and the quote are not modelled. */
  datatype Report = Report(
    ratingSum: int,
    ratingCount: nat,
    balanceLevel: Balance,
    dimensions: seq<Dimension>,
    strengths: seq<string>,
    areasForImprovement: seq<string>,
    personalInfo: PersonalInfo,
    actionPlans: seq<ActionPlan>,
    ageBenchmark: seq<Benchmark>,
    improvementResources: seq<Resource>)

  /** The report body of `generateReport`, once the personal information has passed validation. */
  function BuildReport(dims: seq<Dimension>, info: PersonalInfo): Report {
    Report(
      RatingSum(dims),
      |dims|,
      BalanceOf(dims),
      dims,
      Strengths(dims),
      AreasForImprovement(dims),
      info,
      ActionPlans(dims),
      AgeBenchmark(info.age),
      Resources(Filter(dims, NeedsWork)))
  }

  /**
   * What every report promises: its plans and resources are one per improvement area, in the
   * same order, each plan non-empty; the benchmark has an entry per default dimension; and with
   * distinct names, strengths and improvement areas share no name.
   */
  lemma ReportConsistent(dims: seq<Dimension>, info: PersonalInfo)
    ensures var r := BuildReport(dims, info);
      && r.dimensions == dims && r.personalInfo == info
      && |r.actionPlans| == |r.areasForImprovement| == |r.improvementResources|
      && (forall i :: 0 <= i < |r.actionPlans| ==>
            && r.actionPlans[i].dimension == r.areasForImprovement[i]
            && r.actionPlans[i].plan != ""
            && r.improvementResources[i].dimension == r.areasForImprovement[i])
      && |r.ageBenchmark| == |DefaultNames|
      && |r.strengths| + |r.areasForImprovement| <= |dims|
      && (DistinctNames(dims) ==> forall n :: n in r.strengths ==> n !in r.areasForImprovement)
  {
    ActionPlansFacts(dims);
    ResourcesFacts(Filter(dims, NeedsWork));
    StrengthsWeakDisjointCount(dims);
    if DistinctNames(dims) {
      forall n | n in Strengths(dims) ensures n !in AreasForImprovement(dims) {
        StrengthsAreasDisjoint(dims, n);
      }
    }
  }

  /** No dimension is both rated 8 or higher and 4 or lower, so the two lists together are no longer than the list. */
  lemma {:induction false} StrengthsWeakDisjointCount(dims: seq<Dimension>)
    ensures |Filter(dims, IsStrength)| + |Filter(dims, NeedsWork)| <= |dims|
  {
    if dims != [] {
      var d, rest := dims[0], dims[1..];
      assert dims == [d] + rest;
      FilterAppend([d], rest, IsStrength);
      FilterAppend([d], rest, NeedsWork);
      StrengthsWeakDisjointCount(rest);
    }
  }

  /** With every rating at the default 5, the balance is fair and no dimension is singled out. */
  lemma AllDefaultRatings(dims: seq<Dimension>, info: PersonalInfo)
    requires |dims| > 0
    requires forall i :: 0 <= i < |dims| ==> dims[i].rating == DefaultRating
    ensures var r := BuildReport(dims, info);
      && r.balanceLevel == Fair && r.strengths == [] && r.areasForImprovement == []
      && r.actionPlans == [] && r.improvementResources == []
  {
    SumOfConstant(dims, DefaultRating);
    FilterKeepsNone(dims, IsStrength);
    FilterKeepsNone(dims, NeedsWork);
    ActionPlansFacts(dims);
  }

  /** The report on the untouched page: every default is rated 5, so the level is fair and nothing is singled out. */
  lemma InitialReport(info: PersonalInfo)
    ensures var r := BuildReport(Defaults(), info);
      && r.balanceLevel == Fair && r.strengths == [] && r.areasForImprovement == []
      && r.actionPlans == [] && r.improvementResources == []
  {
    DefaultsWellFormed();
    AllDefaultRatings(Defaults(), info);
  }

  lemma {:induction false} SumOfConstant(dims: seq<Dimension>, k: int)
    requires forall i :: 0 <= i < |dims| ==> dims[i].rating == k
    ensures RatingSum(dims) == k * |dims|
  {
    if dims != [] {
      SumOfConstant(dims[..|dims| - 1], k);
    }
  }
}
