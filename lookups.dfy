/** The static per-dimension lookups behind a report: action plans, reading and course lists, age benchmarks. */
module Lookups {
  import opened Seqs
  import opened Dimensions

  // ---------------------------------------------------------------- action plans

  datatype ActionPlan = ActionPlan(dimension: string, plan: string, quote: string)

  /** A plan text: four numbered steps, one per line. */
  function Steps(first: string, second: string, third: string, fourth: string): (r: string)
    ensures |r| > 0
  {
    "1. " + first + "\n2. " + second + "\n3. " + third + "\n4. " + fourth
  }

  const DefaultPlan: string := Steps("深入分析该领域低分原因", "设定具体可实现的改进目标", "寻找相关资源和支持", "制定行动计划并定期评估进展")

  /** The four-step plan text for a low-rated dimension, by name, with a generic fallback. */
  function PlanText(name: string): (r: string)
    ensures r != ""
  {
    if name == "身体健康" then Steps("每周至少进行150分钟中等强度有氧运动", "保证每晚7-8小时的优质睡眠", "改善饮食习惯，增加蔬果摄入", "定期进行体检")
    else if name == "情绪健康" then Steps("每天进行10分钟的冥想或深呼吸练习", "培养至少一项兴趣爱好", "建立情绪日记，记录情绪变化", "必要时寻求专业心理咨询")
    else if name == "心智成长" then Steps("每月阅读一本新书", "学习一项新技能或语言", "尝试每天写学习笔记", "参与线上或线下课程")
    else if name == "职业发展" then Steps("制定3-5年职业规划", "提升核心工作技能", "拓展职业人脉网络", "寻求导师指导或职业咨询")
    else if name == "财务状况" then Steps("制定月度预算并严格执行", "建立应急基金", "学习基础理财知识", "制定储蓄和投资计划")
    else if name == "亲密关系" then Steps("每周安排一次高质量陪伴时间", "改善沟通方式，学习积极倾听", "表达感谢和赞赏", "共同参与新活动或旅行")
    else if name == "社交友谊" then Steps("每月至少参加一次社交活动", "主动联系久未见面的朋友", "加入兴趣小组或社区组织", "学习有效的社交技巧")
    else if name == "精神价值" then Steps("探索并明确个人价值观", "建立每日反思习惯", "参与志愿服务或公益活动", "寻找生活的意义和目标")
    else DefaultPlan
  }

  /** A dimension the tables do not know gets the generic plan. */
  lemma PlanTextFallback(name: string)
    requires name !in DefaultNames
    ensures PlanText(name) == DefaultPlan
  {
    var known := DefaultNames;
    assert name != known[0] && name != known[1] && name != known[2] && name != known[3];
    assert name != known[4] && name != known[5] && name != known[6] && name != known[7];
  }

  const QuoteOpening: string := "生命中最美好的事物，往往是在我们付出努力后才会出现。专注于提升"
  const QuoteClosing: string := "，你会看到积极的改变。"

  /** The encouragement line attached to every plan: the dimension's name set inside a fixed sentence. */
  function PlanQuote(name: string): (r: string)
    ensures |r| == |QuoteOpening| + |name| + |QuoteClosing|
    ensures r[|QuoteOpening|..|QuoteOpening| + |name|] == name
    ensures r[..|QuoteOpening|] == QuoteOpening
    ensures r[|QuoteOpening| + |name|..] == QuoteClosing
  {
    QuoteOpening + name + QuoteClosing
  }

  /** A dimension rated 4 or lower needs improvement. */
  predicate NeedsWork(d: Dimension) {
    d.rating <= 4
  }

  /** The per-dimension entry of `generateActionPlans` before filtering: an empty plan unless the rating is low. */
  function PlanEntry(d: Dimension): (r: ActionPlan)
    ensures r.dimension == d.name
    ensures HasPlan(r) <==> NeedsWork(d)
  {
    ActionPlan(d.name, if NeedsWork(d) then PlanText(d.name) else "", PlanQuote(d.name))
  }

  predicate HasPlan(a: ActionPlan) {
    a.plan != ""
  }

  /** `generateActionPlans`: map every dimension to its entry, then keep those whose plan is not empty. */
  function ActionPlans(dims: seq<Dimension>): seq<ActionPlan> {
    Filter(Map(dims, PlanEntry), HasPlan)
  }

  /** The plan list is exactly one full plan per low-rated dimension, in list order. */
  lemma {:induction false} ActionPlansOfLowRated(dims: seq<Dimension>)
    ensures ActionPlans(dims) == Map(Filter(dims, NeedsWork), PlanEntry)
  {
    if dims != [] {
      var d, rest := dims[0], dims[1..];
      assert dims == [d] + rest;
      MapAppend([d], rest, PlanEntry);
      FilterAppend(Map([d], PlanEntry), Map(rest, PlanEntry), HasPlan);
      FilterAppend([d], rest, NeedsWork);
      MapAppend(Filter([d], NeedsWork), Filter(rest, NeedsWork), PlanEntry);
      ActionPlansOfLowRated(rest);
      PlanEntryKept(d);
    }
  }

  /** One dimension contributes a plan exactly when it is low rated. */
  lemma PlanEntryKept(d: Dimension)
    ensures Filter(Map([d], PlanEntry), HasPlan) == Map(Filter([d], NeedsWork), PlanEntry)
  {
    assert Map([d], PlanEntry) == [PlanEntry(d)];
    assert HasPlan(PlanEntry(d)) == NeedsWork(d);
  }

  /** What a report's plan list promises: one non-empty plan per low-rated dimension, in order. */
  lemma ActionPlansFacts(dims: seq<Dimension>)
    ensures var plans := ActionPlans(dims); var low := Filter(dims, NeedsWork);
      && |plans| == |low|
      && forall i :: 0 <= i < |plans| ==>
           && plans[i].dimension == low[i].name
           && plans[i].plan == PlanText(low[i].name) != ""
           && plans[i].quote == PlanQuote(low[i].name)
           && (low[i].name !in DefaultNames ==> plans[i].plan == DefaultPlan)
  {
    ActionPlansOfLowRated(dims);
    MapElements(Filter(dims, NeedsWork), PlanEntry);
    var low := Filter(dims, NeedsWork);
    forall i | 0 <= i < |low| && low[i].name !in DefaultNames ensures PlanText(low[i].name) == DefaultPlan {
      PlanTextFallback(low[i].name);
    }
  }

  // ---------------------------------------------------------------- improvement resources

  datatype Resource = Resource(dimension: string, books: seq<string>, courses: seq<string>)

  /** Suggested books for a dimension: three for a known name, two generic ones otherwise. */
  function Books(name: string): (r: seq<string>)
    ensures |r| == if name in DefaultNames then 3 else 2
  {
    if name == "身体健康" then ["《睡眠革命》", "《运动改造大脑》", "《中国居民膳食指南》"]
    else if name == "情绪健康" then ["《被讨厌的勇气》", "《非暴力沟通》", "《当下的力量》"]
    else if name == "心智成长" then ["《终身成长》", "《思考，快与慢》", "《刻意练习》"]
    else if name == "职业发展" then ["《原则》", "《高效能人士的七个习惯》", "《深度工作》"]
    else if name == "财务状况" then ["《小狗钱钱》", "《富爸爸穷爸爸》", "《投资学基础》"]
    else if name == "亲密关系" then ["《爱的五种语言》", "《亲密关系》", "《幸福的婚姻》"]
    else if name == "社交友谊" then ["《人性的弱点》", "《如何赢得朋友及影响他人》", "《社交天性》"]
    else if name == "精神价值" then ["《活出生命的意义》", "《少有人走的路》", "《沉思录》"]
    else ["《终身学习》", "《自我发现之旅》"]
  }

  /** Suggested courses for a dimension: three for a known name, two generic ones otherwise. */
  function Courses(name: string): (r: seq<string>)
    ensures |r| == if name in DefaultNames then 3 else 2
  {
    if name == "身体健康" then ["健康生活方式养成", "基础营养学", "居家健身训练"]
    else if name == "情绪健康" then ["情绪管理入门", "正念冥想实践", "压力缓解技巧"]
    else if name == "心智成长" then ["批判性思维训练", "学习方法与效率提升", "创意思维培养"]
    else if name == "职业发展" then ["职业规划与发展", "领导力提升", "时间管理技巧"]
    else if name == "财务状况" then ["个人理财入门", "投资基础", "消费习惯优化"]
    else if name == "亲密关系" then ["沟通技巧训练", "冲突解决方法", "亲密关系建立"]
    else if name == "社交友谊" then ["社交技巧提升", "人脉管理", "有效沟通"]
    else if name == "精神价值" then ["价值观探索", "生命意义思考", "冥想与反思实践"]
    else ["个人成长基础", "目标设定与实现"]
  }

  /** `getImprovementResources`: one entry per given dimension, in order. */
  function Resources(dims: seq<Dimension>): (r: seq<Resource>)
    ensures |r| == |dims|
  {
    Map(dims, ResourceOf)
  }

  function ResourceOf(d: Dimension): Resource {
    Resource(d.name, Books(d.name), Courses(d.name))
  }

  /** Each entry names its dimension and lists three books and three courses for a known name, two of each otherwise. */
  lemma ResourcesFacts(dims: seq<Dimension>)
    ensures var r := Resources(dims);
      && |r| == |dims|
      && forall i :: 0 <= i < |dims| ==>
           && r[i].dimension == dims[i].name
           && |r[i].books| == |r[i].courses| == (if dims[i].name in DefaultNames then 3 else 2)
  {
    MapElements(dims, ResourceOf);
  }

  // ---------------------------------------------------------------- age benchmarks

  /** A reference average for one dimension. */
  datatype Benchmark = Benchmark(dimension: string, average: real)

  /** Pairs the default dimension names with eight averages. */
  function Table(averages: seq<real>): (r: seq<Benchmark>)
    requires |averages| == 8
    ensures |r| == 8
  {
    seq(8, i requires 0 <= i < 8 => Benchmark(DefaultNames[i], averages[i]))
  }

  /** `getAgeBenchmark`: one of four fixed tables, chosen by age below 25, below 40, below 60, or older. */
  function AgeBenchmark(age: int): (r: seq<Benchmark>)
    ensures |r| == 8
  {
    if age < 25 then Table([7.5, 6.8, 7.2, 5.5, 4.8, 6.2, 7.0, 6.0])
    else if age < 40 then Table([7.0, 6.5, 7.5, 7.2, 6.5, 7.0, 6.5, 6.8])
    else if age < 60 then Table([6.5, 6.8, 7.0, 7.5, 7.2, 7.5, 6.0, 7.2])
    else Table([6.0, 7.0, 6.8, 6.5, 7.5, 7.8, 6.5, 7.5])
  }

  /** Every table has one entry per default dimension, in order, with an average on the rating scale. */
  lemma AgeBenchmarkFacts(age: int)
    ensures var r := AgeBenchmark(age);
      && |r| == |DefaultNames|
      && forall i :: 0 <= i < |r| ==> r[i].dimension == DefaultNames[i] && 1.0 <= r[i].average <= 10.0
  {
  }
}
