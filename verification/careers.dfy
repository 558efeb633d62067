/**
 * The two public careers pages (`src/pages/careers/index.jsx` and its near
 * copy `src/pages/careers/Careers.jsx`): the "posted ... ago" label, the
 * department filter, the reshaping of the job records and department
 * statistics the careers service returns, and the skill chips. Instants are
 * integer milliseconds; the current time is an argument.
 */
module Careers {
  import opened Common
  import opened Strings
  import opened Lists

  // ---------------------------------------------------------------------------
  // formatDate
  // ---------------------------------------------------------------------------

  /** `1000 * 60 * 60 * 24`: one day in milliseconds. */
  const DAY: int := 1000 * 60 * 60 * 24

  function Abs(x: int): nat {
    if x < 0 then -x else x
  }

  /** `Math.ceil(Math.abs(now - date) / DAY)`: the number of started days
      between the two instants, in either direction. */
  function DiffDays(date: int, now: int): (d: nat)
    ensures d * DAY - DAY < Abs(now - date) <= d * DAY
  {
    (Abs(now - date) + DAY - 1) / DAY
  }

  /** The age is measured the same way for past and future instants. */
  lemma DiffDaysSymmetric(a: int, b: int)
    ensures DiffDays(a, b) == DiffDays(b, a)
  {
  }

  /** The reading of an age in whole days: a number of days, weeks or months. */
  datatype Ago = Days(n: nat) | Weeks(n: nat) | Months(n: nat)

  /** The length in days of the unit an `Ago` counts. */
  function Unit(a: Ago): nat {
    match a
    case Days(_) => 1
    case Weeks(_) => 7
    case Months(_) => 30
  }

  /** The age an `Ago` stands for, in days. */
  function Approx(a: Ago): nat {
    Unit(a) * a.n
  }

  /** The buckets of `formatDate`: days below a week, weeks below 30 days,
      months (of 30 days) after that; each counts whole units, rounding down. */
  function AgoOf(d: nat): (r: Ago)
    ensures r.Days? <==> d < 7
    ensures r.Weeks? <==> 7 <= d < 30
    ensures r.Months? <==> 30 <= d
    ensures Approx(r) <= d < Approx(r) + Unit(r)
  {
    if d < 7 then Days(d)
    else if d < 14 then Weeks(1)
    else if d < 30 then Weeks(d / 7)
    else Months(d / 30)
  }

  /** An older post never reads as more recent than a newer one. */
  lemma AgoMonotone(d1: nat, d2: nat)
    requires d1 <= d2
    ensures Approx(AgoOf(d1)) <= Approx(AgoOf(d2))
  {
  }

  /** The label of an age. One day and one week are singular; "1 months ago"
      is what the source writes for ages from 30 to 59 days. */
  function AgoText(a: Ago): (r: string)
    ensures r != "" && IsDigit(r[0])
  {
    match a
    case Days(n) => if n == 1 then "1 day ago" else IntToString(n) + " days ago"
    case Weeks(n) => if n == 1 then "1 week ago" else IntToString(n) + " weeks ago"
    case Months(n) => IntToString(n) + " months ago"
  }

  const RECENTLY := "Recently"

  /** `formatDate(dateString)`; a missing or empty date is `None`. */
  function FormatDate(date: Option<int>, now: int): (r: string)
    ensures r == RECENTLY <==> date.None?
    ensures date.Some? ==> r == AgoText(AgoOf(DiffDays(date.value, now)))
  {
    if date.None? then RECENTLY
    else
      var r := AgoText(AgoOf(DiffDays(date.value, now)));
      assert r[0] != RECENTLY[0];
      r
  }

  lemma ZeroDaysText()
    ensures AgoText(Days(0)) == "0 days ago"
  {
    assert IntToString(0) == "0";
  }

  lemma OneMonthText()
    ensures AgoText(Months(1)) == "1 months ago"
  {
    assert IntToString(1) == "1";
  }

  /** A post dated this very instant reads "0 days ago". */
  lemma PostedNowText(now: int)
    ensures FormatDate(Some(now), now) == "0 days ago"
  {
    assert DiffDays(now, now) == 0;
    ZeroDaysText();
  }

  /** A post dated 30 days back reads "1 months ago". */
  lemma PostedMonthAgoText(now: int)
    ensures FormatDate(Some(now - 30 * DAY), now) == "1 months ago"
  {
    assert DiffDays(now - 30 * DAY, now) == 30;
    OneMonthText();
  }

  // ---------------------------------------------------------------------------
  // Job records
  // ---------------------------------------------------------------------------

  /** A job as the careers service returns it; absent or empty fields are `None`. */
  datatype Career = Career(
    id: string, title: string, department: string, location: string, jobType: string,
    experience: Option<string>, skills: Option<seq<string>>, description: string,
    requirements: Option<seq<string>>, responsibilities: Option<seq<string>>,
    benefits: Option<seq<string>>, salary: Option<string>,
    createdAt: Option<int>, postedDate: Option<int>, status: string)

  /** A job as the listing shows it (the fields both pages build). */
  datatype Job = Job(
    id: string, title: string, department: string, location: string, jobType: string,
    experience: string, skills: seq<string>, description: string,
    requirements: seq<string>, salary: string, posted: string, status: string)

  /** A job of `index.jsx`, which also keeps responsibilities and benefits. */
  datatype Opening = Opening(job: Job, responsibilities: seq<string>, benefits: seq<string>)

  const REMOTE := "Remote"
  const HYBRID := "Hybrid"
  const IN_OFFICE := "In-office"
  const NOT_SPECIFIED := "Not specified"
  const COMPETITIVE := "Competitive"

  /** The work-place label of a job type: anything but "remote" and "hybrid"
      counts as in-office. */
  function JobTypeLabel(jobType: string): (r: string)
    ensures r == REMOTE <==> jobType == "remote"
    ensures r == HYBRID <==> jobType == "hybrid"
    ensures r == IN_OFFICE <==> jobType != "remote" && jobType != "hybrid"
  {
    if jobType == "remote" then REMOTE
    else if jobType == "hybrid" then HYBRID
    else IN_OFFICE
  }

  /** `career.createdAt || career.postedDate`: the creation date wins. */
  function PostedOn(c: Career): (r: Option<int>)
    ensures c.createdAt.Some? ==> r == c.createdAt
    ensures c.createdAt.None? ==> r == c.postedDate
  {
    if c.createdAt.Some? then c.createdAt else c.postedDate
  }

  /** The job card of `Careers.jsx`. */
  function ToJob(c: Career, now: int): (r: Job)
    ensures r.id == c.id && r.title == c.title && r.location == c.location
    ensures r.description == c.description && r.status == c.status
    ensures |r.department| == |c.department|
    ensures c.department != "" ==> r.department[0] == UpperChar(c.department[0]) && r.department[1..] == c.department[1..]
    ensures r.jobType == JobTypeLabel(c.jobType)
    ensures c.experience.Some? && c.experience.value != "" ==> r.experience == c.experience.value
    ensures c.experience.None? || c.experience.value == "" ==> r.experience == NOT_SPECIFIED
    ensures c.salary.Some? && c.salary.value != "" ==> r.salary == c.salary.value
    ensures c.salary.None? || c.salary.value == "" ==> r.salary == COMPETITIVE
    ensures c.skills.None? ==> r.skills == []
    ensures c.requirements.None? ==> r.requirements == []
    ensures c.skills.Some? ==> r.skills == c.skills.value
    ensures c.requirements.Some? ==> r.requirements == c.requirements.value
    ensures r.posted == RECENTLY <==> c.createdAt.None? && c.postedDate.None?
    ensures r.posted == FormatDate(PostedOn(c), now)
  {
    Job(c.id, c.title, Capitalize(c.department), c.location, JobTypeLabel(c.jobType),
        TextOr(c.experience, NOT_SPECIFIED), c.skills.GetOr([]), c.description,
        c.requirements.GetOr([]), TextOr(c.salary, COMPETITIVE),
        FormatDate(PostedOn(c), now), c.status)
  }

  /** The job of `index.jsx`. */
  function ToOpening(c: Career, now: int): (r: Opening)
    ensures c.responsibilities.None? ==> r.responsibilities == []
    ensures c.benefits.None? ==> r.benefits == []
    ensures c.responsibilities.Some? ==> r.responsibilities == c.responsibilities.value
    ensures c.benefits.Some? ==> r.benefits == c.benefits.value
  {
    Opening(
      Job(c.id, c.title, Capitalize(c.department), c.location, JobTypeLabel(c.jobType),
          TextOr(c.experience, NOT_SPECIFIED), c.skills.GetOr([]), c.description,
          c.requirements.GetOr([]), TextOr(c.salary, COMPETITIVE),
          FormatDate(PostedOn(c), now), c.status),
      c.responsibilities.GetOr([]), c.benefits.GetOr([]))
  }

  /** The two pages agree on every field they both build. */
  lemma PagesAgree(c: Career, now: int)
    ensures ToOpening(c, now).job == ToJob(c, now)
  {
  }

  /** `careersResponse.careers || []` mapped through the transform. */
  function Jobs(careers: Option<seq<Career>>, now: int): (r: seq<Job>)
    ensures careers.None? ==> r == []
    ensures careers.Some? ==> |r| == |careers.value|
    ensures careers.Some? ==> forall i :: 0 <= i < |r| ==> r[i] == ToJob(careers.value[i], now)
  {
    var cs := careers.GetOr([]);
    seq(|cs|, i requires 0 <= i < |cs| => ToJob(cs[i], now))
  }

  // ---------------------------------------------------------------------------
  // Department filter
  // ---------------------------------------------------------------------------

  const ALL := "All"

  /** `filteredJobs`: every job under "All", otherwise the jobs of the selected
      department in listing order. */
  function FilteredJobs(jobs: seq<Job>, selected: string): (r: seq<Job>)
    ensures selected == ALL ==> r == jobs
    ensures selected != ALL ==> Subseq(r, jobs)
    ensures selected != ALL ==> forall i :: 0 <= i < |r| ==> r[i].department == selected
    ensures selected != ALL ==> forall i :: 0 <= i < |jobs| && jobs[i].department == selected ==> jobs[i] in r
    ensures selected != ALL ==> forall j :: multiset(r)[j] == if j.department == selected then multiset(jobs)[j] else 0
  {
    if selected == ALL then jobs else Filter(jobs, (j: Job) => j.department == selected)
  }

  /** Every job of the listing is found under its own department's button. */
  lemma JobUnderItsDepartment(jobs: seq<Job>, i: int)
    requires 0 <= i < |jobs|
    ensures jobs[i] in FilteredJobs(jobs, jobs[i].department)
  {
  }

  // ---------------------------------------------------------------------------
  // Departments and counters
  // ---------------------------------------------------------------------------

  /** One entry of the service's department statistics. */
  datatype DeptStat = DeptStat(id: string, activeCount: Option<int>, count: int)

  /** A department button: its label, its counter and its colour. */
  datatype Department = Department(name: string, count: int, color: string)

  const GRAY_500 := "bg-gray-500"

  const DEPARTMENT_COLORS: map<string, string> := map[
    "engineering" := "bg-blue-500",
    "design" := "bg-purple-500",
    "marketing" := "bg-green-500",
    "sales" := "bg-orange-500",
    "operations" := "bg-pink-500",
    "other" := GRAY_500
  ]

  /** The button of one department: the capitalised id, the active count (or
      the total when the active count is missing or zero) and its colour. */
  function ToDepartment(d: DeptStat): (r: Department)
    ensures r.name == Capitalize(d.id)
    ensures d.activeCount.Some? && d.activeCount.value != 0 ==> r.count == d.activeCount.value
    ensures d.activeCount.None? || d.activeCount.value == 0 ==> r.count == d.count
    ensures d.id in DEPARTMENT_COLORS ==> r.color == DEPARTMENT_COLORS[d.id]
    ensures d.id !in DEPARTMENT_COLORS ==> r.color == GRAY_500
  {
    Department(Capitalize(d.id), NumberOr(d.activeCount, d.count),
      if d.id in DEPARTMENT_COLORS && DEPARTMENT_COLORS[d.id] != "" then DEPARTMENT_COLORS[d.id] else GRAY_500)
  }

  /** The department buttons after a load: rebuilt from the statistics when
      the service sent them, the previous ones otherwise. */
  function Departments(stats: Option<seq<DeptStat>>, previous: seq<Department>): (r: seq<Department>)
    ensures stats.None? ==> r == previous
    ensures stats.Some? ==> |r| == |stats.value|
    ensures stats.Some? ==> forall i :: 0 <= i < |r| ==> r[i] == ToDepartment(stats.value[i])
  {
    if stats.None? then previous
    else seq(|stats.value|, i requires 0 <= i < |stats.value| => ToDepartment(stats.value[i]))
  }

  /** The counters of the stats section. */
  datatype Stats = Stats(totalJobs: int, totalDepartments: int, teamMembers: int, satisfaction: int)

  /** `setStats(...)` after a load: `overview?.total || 0` and
      `departments?.length || 0`, with the two fixed counters. */
  function LoadStats(total: Option<int>, stats: Option<seq<DeptStat>>): (r: Stats)
    ensures r.totalJobs == NumberOr(total, 0)
    ensures stats.None? ==> r.totalDepartments == 0
    ensures stats.Some? ==> r.totalDepartments == |stats.value|
    ensures r.teamMembers == 50 && r.satisfaction == 95
  {
    Stats(NumberOr(total, 0), if stats.Some? then |stats.value| else 0, 50, 95)
  }

  /** The department counter equals the number of buttons the same load builds. */
  lemma DepartmentCounterMatchesButtons(total: Option<int>, stats: Option<seq<DeptStat>>)
    requires stats.Some?
    ensures LoadStats(total, stats).totalDepartments == |Departments(stats, [])|
  {
  }

  /** A job of a department the statistics list is found under that
      department's button: both labels are the capitalised id. */
  lemma DepartmentButtonFindsJob(careers: seq<Career>, now: int, d: DeptStat, i: int)
    requires 0 <= i < |careers| && careers[i].department == d.id
    requires Capitalize(d.id) != ALL
    ensures ToJob(careers[i], now) in FilteredJobs(Jobs(Some(careers), now), ToDepartment(d).name)
  {
    var jobs := Jobs(Some(careers), now);
    assert jobs[i] == ToJob(careers[i], now);
    assert jobs[i].department == ToDepartment(d).name;
  }

  // ---------------------------------------------------------------------------
  // Job card details
  // ---------------------------------------------------------------------------

  /** The skill chips of a job card: four skills and "+N more" for the rest. */
  function SkillChips(job: Job): (r: Preview<string>)
    ensures r.shown == job.skills[..Min(4, |job.skills|)]
    ensures r.more == |job.skills| - |r.shown|
    ensures r.more > 0 <==> |job.skills| > 4
  {
    PreviewOf(job.skills, 4)
  }

  /** A job with six skills shows its first four and "+2 more". */
  lemma SixSkillsShowFour(job: Job)
    requires |job.skills| == 6
    ensures SkillChips(job) == Preview(job.skills[..4], 2)
  {
  }

  /** A skill added behind four or more shown ones only raises the "+N more" count. */
  lemma ExtraSkillCountsAsMore(job: Job, skill: string)
    requires |job.skills| >= 4
    ensures SkillChips(job.(skills := job.skills + [skill])).shown == SkillChips(job).shown
    ensures SkillChips(job.(skills := job.skills + [skill])).more == SkillChips(job).more + 1
  {
    PreviewGrows(job.skills, skill, 4);
  }

  /** Whether the job dialog of `Careers.jsx` shows its requirements and skills
      sections: only for non-empty lists. */
  datatype Sections = Sections(requirements: bool, skills: bool)

  function DialogSections(job: Job): (r: Sections)
    ensures r.requirements <==> job.requirements != []
    ensures r.skills <==> job.skills != []
  {
    Sections(|job.requirements| > 0, |job.skills| > 0)
  }

  /** A job the service sent without skills or requirements shows neither
      section, and no skill chip. */
  lemma MissingListsHideSections(c: Career, now: int)
    requires c.skills.None? && c.requirements.None?
    ensures DialogSections(ToJob(c, now)) == Sections(false, false)
    ensures SkillChips(ToJob(c, now)) == Preview([], 0)
  {
  }
}
