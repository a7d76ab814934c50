/**
 * The job store (src/stores/jobs.ts): the generated list of demo jobs and
 * the two getters over it. The random choices of `pick` are draws supplied
 * by the caller, the shuffle is a permutation supplied with its inverse,
 * and the constant tables (`SourceTables`, and the per-category template
 * tables) are parameters.
 */
module JobStore {
  import opened Wrappers
  import opened Text

  /** `Job['requirements']`. */
  datatype Requirements = Requirements(experience: string, education: string)

  /** `Job`. */
  datatype Job = Job(
    id: int,
    title: string,
    company: string,
    salary: string,
    location: string,
    requirements: Requirements,
    tags: seq<string>,
    description: string,
    responsibilities: seq<string>,
    qualifications: seq<string>)

  /** One entry of a category's template table. */
  datatype Template = Template(title: string, tags: seq<string>, desc: string, resps: seq<string>, reqs: seq<string>)

  /** One entry of `COMPANIES`. */
  datatype CompanyInfo = CompanyInfo(name: string, logo: string, size: string, location: string)

  const Companies: seq<CompanyInfo> := [
    CompanyInfo("AutoDrive Tech", "", "D轮及以上", "上海"),
    CompanyInfo("Future Mobility", "", "上市公司", "北京"),
    CompanyInfo("SimuDrive", "", "B轮", "深圳"),
    CompanyInfo("NextGen AI", "", "A轮", "杭州"),
    CompanyInfo("RoboTruck Inc.", "", "C轮", "苏州"),
    CompanyInfo("Global OEMs", "", "上市公司", "广州"),
    CompanyInfo("Smart Cabin Ltd.", "", "B轮", "武汉"),
    CompanyInfo("ChipSilicon", "", "上市公司", "上海")]

  const Locations: seq<string> := ["上海", "北京", "深圳", "杭州", "苏州", "广州", "武汉", "成都"]
  const SalaryRanges: seq<string> := ["25-45K", "30-60K", "40-70K", "50-80K", "60-100K"]
  const Months: seq<string> := ["14薪", "15薪", "16薪", "18薪"]
  const ExperienceLevels: seq<string> := ["1-3年", "3-5年", "应届"]
  const EducationLevels: seq<string> := ["本科", "硕士", "硕士及以上", "博士"]

  /** The constant tables `generateJobs` picks from. */
  datatype Tables = Tables(companies: seq<CompanyInfo>, locations: seq<string>, salaryRanges: seq<string>,
                           months: seq<string>, experience: seq<string>, education: seq<string>)

  /** The tables as the store defines them. */
  const SourceTables := Tables(Companies, Locations, SalaryRanges, Months, ExperienceLevels, EducationLevels)

  /** The keys of `TEMPLATES`, in insertion order. */
  const Categories: seq<string> := ["感知算法", "决策规划", "嵌入式", "仿真与测试", "云平台与工具"]

  /** `categoryTarget`: jobs made per category. */
  const PerCategory: nat := 32

  /** Jobs made in all. */
  const JobCount: nat := 160

  const ArrayEmpty := "Array is empty"
  const SeniorLocation := "上海"
  const SeniorExperience := "5-10年"

  // ------------------------------------------------------------------ pick

  /**
   * `pick`: the element at the slot `randomInt(0, arr.length - 1)` drew.
   * That slot is in range for a non-empty array and is `0` for an empty
   * one, where the slot is undefined and `pick` throws.
   */
  function Pick<T>(arr: seq<T>, draw: nat): (r: Result<T, string>)
    requires draw < |arr| || draw == 0
    ensures r.Err? <==> arr == []
    ensures r.Err? ==> r.error == ArrayEmpty
    ensures r.Ok? ==> r.value in arr
  {
    if draw < |arr| then Ok(arr[draw]) else Err(ArrayEmpty)
  }

  // ------------------------------------------------------------- generating

  /** The slots every `pick` of one loop iteration drew. */
  datatype Draws = Draws(template: nat, company: nat, salary: nat, months: nat,
                         location: nat, experience: nat, education: nat)

  /** The draws are slots of their tables; location and experience are drawn only for a non-senior role. */
  predicate DrawsFit(tables: Tables, d: Draws, templateCount: nat, senior: bool) {
    d.template < templateCount && d.company < |tables.companies| && d.salary < |tables.salaryRanges| && d.months < |tables.months|
    && d.education < |tables.education|
    && (!senior ==> d.location < |tables.locations| && d.experience < |tables.experience|)
  }

  /** `i % 3 === 0`. */
  predicate IsSenior(i: nat) { i % 3 == 0 }

  /** The job the loop body pushes for iteration `i` of `category`, with id `id`. */
  function MakeJob(tables: Tables, category: string, templates: seq<Template>, i: nat, id: int, d: Draws): Job
    requires DrawsFit(tables, d, |templates|, IsSenior(i))
  {
    var t := templates[d.template];
    var title := if IsSenior(i) && !Contains(t.title, "专家") then "资深" + t.title else t.title;
    var location := if IsSenior(i) then SeniorLocation else tables.locations[d.location];
    var experience := if IsSenior(i) then SeniorExperience else tables.experience[d.experience];
    Job(id, title, tables.companies[d.company].name, tables.salaryRanges[d.salary] + "·" + tables.months[d.months], location,
        Requirements(experience, tables.education[d.education]),
        t.tags + [category], t.desc, t.resps, t.reqs)
  }

  /**
   * What a pushed job holds: the template's texts, its tags followed by
   * the category, a senior title, location and experience exactly for a
   * senior iteration, and otherwise values from the tables.
   */
  lemma MakeJobShape(tables: Tables, category: string, templates: seq<Template>, i: nat, id: int, d: Draws)
    requires DrawsFit(tables, d, |templates|, IsSenior(i))
    ensures var job := MakeJob(tables, category, templates, i, id, d);
      var t := templates[d.template];
      && t in templates
      && job.id == id
      && job.tags == t.tags + [category]
      && job.description == t.desc && job.responsibilities == t.resps && job.qualifications == t.reqs
      && (i % 3 == 0 ==> (job.location == "上海" && job.requirements.experience == "5-10年"
                          && job.title == (if Contains(t.title, "专家") then t.title else "资深" + t.title)))
      && (i % 3 != 0 ==> (job.location in tables.locations && job.requirements.experience in tables.experience
                          && job.title == t.title))
      && (exists co :: co in tables.companies && job.company == co.name)
      && (exists s, m :: s in tables.salaryRanges && m in tables.months && job.salary == s + "·" + m)
      && job.requirements.education in tables.education
  {
    var job := MakeJob(tables, category, templates, i, id, d);
    assert tables.companies[d.company] in tables.companies;
    assert tables.salaryRanges[d.salary] in tables.salaryRanges && tables.months[d.months] in tables.months;
  }

  /** The draws of one category fit its template table. */
  predicate CategoryFits(tables: Tables, table: seq<Template>, ds: seq<Draws>) {
    forall i :: 0 <= i < |ds| ==> DrawsFit(tables, ds[i], |table|, IsSenior(i))
  }

  /** One non-empty template table and 32 fitting draws for each of the first `|draws|` categories. */
  predicate TablesFit(tables: Tables, templates: seq<seq<Template>>, draws: seq<seq<Draws>>) {
    |templates| == |draws| <= |Categories|
    && forall c :: 0 <= c < |draws| ==>
      templates[c] != [] && |draws[c]| == PerCategory && CategoryFits(tables, templates[c], draws[c])
  }

  /** The template tables and draws the generator runs on: one table and one row of draws per category. */
  predicate Feasible(tables: Tables, templates: seq<seq<Template>>, draws: seq<seq<Draws>>) {
    TablesFit(tables, templates, draws) && |draws| == |Categories|
  }

  /** The jobs category `c` pushes for the draws `ds`, in order. */
  function CategoryJobs(tables: Tables, c: nat, table: seq<Template>, ds: seq<Draws>): (r: seq<Job>)
    requires c < |Categories| && CategoryFits(tables, table, ds)
    ensures |r| == |ds|
  {
    seq(|ds|, i requires 0 <= i < |ds| => MakeJob(tables, Categories[c], table, i, PerCategory * c + i + 1, ds[i]))
  }

  /** One row of jobs per category. */
  function JobRows(tables: Tables, templates: seq<seq<Template>>, draws: seq<seq<Draws>>): (r: seq<seq<Job>>)
    requires TablesFit(tables, templates, draws)
    ensures |r| == |draws| && forall c :: 0 <= c < |r| ==> |r[c]| == PerCategory
  {
    seq(|draws|, c requires 0 <= c < |draws| => CategoryJobs(tables, c, templates[c], draws[c]))
  }

  /** The rows one after another. */
  function Flatten<T>(rows: seq<seq<T>>): seq<T> {
    if rows == [] then [] else Flatten(rows[..|rows| - 1]) + rows[|rows| - 1]
  }

  /** Rows of 32 flatten to 32 elements per row, element `i` of row `c` landing at `32 * c + i`. */
  lemma {:induction false} FlattenAt<T>(rows: seq<seq<T>>, c: nat, i: nat)
    requires forall r :: 0 <= r < |rows| ==> |rows[r]| == PerCategory
    requires c < |rows| && i < PerCategory
    ensures |Flatten(rows)| == PerCategory * |rows|
    ensures Flatten(rows)[PerCategory * c + i] == rows[c][i]
    decreases |rows|
  {
    var n := |rows| - 1;
    FlattenLength(rows[..n]);
    if c < n {
      FlattenAt(rows[..n], c, i);
    }
  }

  /** Flattening one more row appends that row. */
  lemma FlattenSnoc<T>(rows: seq<seq<T>>, c: nat)
    requires c < |rows|
    ensures Flatten(rows[..c + 1]) == Flatten(rows[..c]) + rows[c]
  {
    assert rows[..c + 1][..c] == rows[..c];
  }

  /** Pushing element `i` of a row extends the pushed prefix of that row by one. */
  lemma PushStep<T>(done: seq<T>, row: seq<T>, i: nat)
    requires i < |row|
    ensures done + row[..i + 1] == (done + row[..i]) + [row[i]]
  {
    assert row[..i + 1] == row[..i] + [row[i]];
  }

  lemma {:induction false} FlattenLength<T>(rows: seq<seq<T>>)
    requires forall r :: 0 <= r < |rows| ==> |rows[r]| == PerCategory
    ensures |Flatten(rows)| == PerCategory * |rows|
    decreases |rows|
  {
    if rows != [] {
      FlattenLength(rows[..|rows| - 1]);
    }
  }

  /** The list before the shuffle. */
  function Created(tables: Tables, templates: seq<seq<Template>>, draws: seq<seq<Draws>>): seq<Job>
    requires Feasible(tables, templates, draws)
  {
    Flatten(JobRows(tables, templates, draws))
  }

  /** `perm` reorders `n` positions and `inv` undoes it. */
  predicate IsBijection(perm: seq<nat>, inv: seq<nat>, n: nat) {
    |perm| == n && |inv| == n
    && (forall j :: 0 <= j < n ==> perm[j] < n && inv[perm[j]] == j)
    && (forall k :: 0 <= k < n ==> inv[k] < n && perm[inv[k]] == k)
  }

  /** The list reordered so that position `j` holds the element from position `perm[j]`. */
  function Permute<T>(xs: seq<T>, perm: seq<nat>): (r: seq<T>)
    requires forall j :: 0 <= j < |perm| ==> perm[j] < |xs|
    ensures |r| == |perm|
  {
    seq(|perm|, j requires 0 <= j < |perm| => xs[perm[j]])
  }

  /** Job `i` of category `c` sits at position `32 * c + i` of the created list. */
  lemma CreatedAt(tables: Tables, templates: seq<seq<Template>>, draws: seq<seq<Draws>>, c: nat, i: nat)
    requires Feasible(tables, templates, draws) && c < |Categories| && i < PerCategory
    ensures |Created(tables, templates, draws)| == JobCount
    ensures Created(tables, templates, draws)[PerCategory * c + i]
         == MakeJob(tables, Categories[c], templates[c], i, PerCategory * c + i + 1, draws[c][i])
  {
    var rows := JobRows(tables, templates, draws);
    FlattenAt(rows, c, i);
    assert rows[c][i] == CategoryJobs(tables, c, templates[c], draws[c])[i];
  }

  /** Every created job carries its own position plus one as its id. */
  lemma CreatedIds(tables: Tables, templates: seq<seq<Template>>, draws: seq<seq<Draws>>, k: nat)
    requires Feasible(tables, templates, draws) && k < JobCount
    ensures |Created(tables, templates, draws)| == JobCount
    ensures Created(tables, templates, draws)[k].id == k + 1
  {
    var c := k / PerCategory;
    var i := k % PerCategory;
    assert k == PerCategory * c + i;
    CreatedAt(tables, templates, draws, c, i);
  }

  /** One iteration's picks and the job literal built from them (src/stores/jobs.ts:225-246). */
  method NewJob(tables: Tables, category: string, table: seq<Template>, i: nat, id: int, d: Draws) returns (job: Job)
    requires DrawsFit(tables, d, |table|, IsSenior(i))
    ensures job == MakeJob(tables, category, table, i, id, d)
  {
    var template := Pick(table, d.template).value;
    var company := Pick(tables.companies, d.company).value;
    var isSenior := i % 3 == 0;
    var salary := Pick(tables.salaryRanges, d.salary).value;
    var months := Pick(tables.months, d.months).value;
    var title := if isSenior && !Contains(template.title, "专家") then "资深" + template.title else template.title;
    var location := if isSenior then SeniorLocation else Pick(tables.locations, d.location).value;
    var experience := if isSenior then SeniorExperience else Pick(tables.experience, d.experience).value;
    var education := Pick(tables.education, d.education).value;
    job := Job(id, title, company.name, salary + "·" + months, location,
               Requirements(experience, education), template.tags + [category],
               template.desc, template.resps, template.reqs);
  }

  /**
   * `generateJobs`: 32 jobs per category pushed with ids counted up from
   * one, then the list shuffled.
   */
  method GenerateJobs(tables: Tables, templates: seq<seq<Template>>, draws: seq<seq<Draws>>, perm: seq<nat>, inv: seq<nat>)
    returns (jobs: seq<Job>)
    requires Feasible(tables, templates, draws)
    requires IsBijection(perm, inv, JobCount)
    ensures |Created(tables, templates, draws)| == JobCount
    ensures jobs == Permute(Created(tables, templates, draws), perm)
  {
    jobs := [];
    var idCounter := 1;
    ghost var rows := JobRows(tables, templates, draws);
    for c := 0 to |Categories|
      invariant jobs == Flatten(rows[..c])
      invariant idCounter == PerCategory * c + 1
    {
      var category := Categories[c];
      var table := templates[c];
      var row := draws[c];
      assert CategoryFits(tables, table, row);
      for i := 0 to PerCategory
        invariant jobs == Flatten(rows[..c]) + rows[c][..i]
        invariant idCounter == PerCategory * c + i + 1
      {
        var job := NewJob(tables, category, table, i, idCounter, row[i]);
        assert job == rows[c][i];
        PushStep(Flatten(rows[..c]), rows[c], i);
        jobs := jobs + [job];
        idCounter := idCounter + 1;
      }
      assert rows[c][..PerCategory] == rows[c];
      FlattenSnoc(rows, c);
    }
    assert rows[..|Categories|] == rows;
    FlattenLength(rows);
    jobs := Permute(jobs, perm);
  }

  /** The generated list is a reordering of the created one: 160 jobs, each with its multiplicity. */
  lemma GeneratedIsPermutation(tables: Tables, templates: seq<seq<Template>>, draws: seq<seq<Draws>>, perm: seq<nat>, inv: seq<nat>)
    requires Feasible(tables, templates, draws)
    requires IsBijection(perm, inv, JobCount)
    ensures |Created(tables, templates, draws)| == JobCount
    ensures var jobs := Permute(Created(tables, templates, draws), perm);
      && |jobs| == JobCount
      && multiset(jobs) == multiset(Created(tables, templates, draws))
  {
    CreatedIds(tables, templates, draws, 0);
    PermuteMultiset(Created(tables, templates, draws), perm, inv);
  }

  /** Reordering by a bijection keeps every element with its multiplicity. */
  lemma {:induction false} PermuteMultiset<T>(xs: seq<T>, perm: seq<nat>, inv: seq<nat>)
    requires IsBijection(perm, inv, |xs|)
    ensures multiset(Permute(xs, perm)) == multiset(xs)
    decreases |xs|
  {
    if xs != [] {
      var n := |xs|;
      var last := n - 1;
      var p := perm[last];
      var ys := Permute(xs, perm);
      var xs' := xs[..p] + xs[p + 1..];
      var perm' := seq(last, j requires 0 <= j < last => if perm[j] < p then perm[j] else perm[j] - 1);
      var inv' := seq(last, k requires 0 <= k < last => if k < p then inv[k] else inv[k + 1]);
      forall j | 0 <= j < last
        ensures perm[j] != p
      {
        assert inv[perm[j]] == j;
      }
      forall k | 0 <= k < last
        ensures inv'[k] < last
      {
        var k' := if k < p then k else k + 1;
        assert perm[inv[k']] == k';
      }
      assert IsBijection(perm', inv', last);
      PermuteMultiset(xs', perm', inv');
      assert Permute(xs', perm') == ys[..last];
      assert ys == ys[..last] + [xs[p]];
      assert xs == xs[..p] + [xs[p]] + xs[p + 1..];
    }
  }

  /** The ids the jobs carry. */
  function IdsOf(jobs: seq<Job>): set<int> {
    set j | 0 <= j < |jobs| :: jobs[j].id
  }

  /**
   * The generated ids are exactly 1 to 160, each once: every id in that
   * range is at some position, and two positions never share an id.
   */
  lemma GeneratedIdsOnce(tables: Tables, templates: seq<seq<Template>>, draws: seq<seq<Draws>>, perm: seq<nat>, inv: seq<nat>)
    requires Feasible(tables, templates, draws)
    requires IsBijection(perm, inv, JobCount)
    ensures |Created(tables, templates, draws)| == JobCount
    ensures var jobs := Permute(Created(tables, templates, draws), perm);
      && |jobs| == JobCount
      && (forall j :: 0 <= j < |jobs| ==> 1 <= jobs[j].id <= JobCount)
      && (forall id :: id in IdsOf(jobs) <==> 1 <= id <= JobCount)
      && (forall j, l :: 0 <= j < l < |jobs| ==> jobs[j].id != jobs[l].id)
  {
    CreatedIds(tables, templates, draws, 0);
    var xs := Created(tables, templates, draws);
    var jobs := Permute(xs, perm);
    forall j | 0 <= j < |jobs|
      ensures jobs[j].id == perm[j] + 1
    {
      CreatedIds(tables, templates, draws, perm[j]);
    }
    forall id: int | 1 <= id <= JobCount
      ensures id in IdsOf(jobs)
    {
      assert jobs[inv[id - 1]].id == id;
    }
    forall j, l | 0 <= j < l < |jobs|
      ensures jobs[j].id != jobs[l].id
    {
      assert inv[perm[j]] == j && inv[perm[l]] == l;
    }
  }

  /**
   * Every third job of a category (loop index divisible by three) is a
   * senior role in 上海 asking for 5-10年, titled `资深` and the template
   * title unless that already names an expert; the others are at one of
   * the eight locations with one of the three experience levels and keep
   * the template title. Tags end with the category and the salary is a
   * range, `·` and a month count.
   */
  lemma CreatedRoles(tables: Tables, templates: seq<seq<Template>>, draws: seq<seq<Draws>>, c: nat, i: nat)
    requires Feasible(tables, templates, draws) && c < |Categories| && i < PerCategory
    ensures |Created(tables, templates, draws)| == JobCount
    ensures var job := Created(tables, templates, draws)[PerCategory * c + i];
      var t := templates[c][draws[c][i].template];
      && t in templates[c]
      && job.id == PerCategory * c + i + 1
      && job.tags == t.tags + [Categories[c]]
      && (i % 3 == 0 ==> (job.location == "上海" && job.requirements.experience == "5-10年"
                          && job.title == (if Contains(t.title, "专家") then t.title else "资深" + t.title)))
      && (i % 3 != 0 ==> (job.location in tables.locations && job.requirements.experience in tables.experience
                          && job.title == t.title))
      && (exists s, m :: s in tables.salaryRanges && m in tables.months && job.salary == s + "·" + m)
  {
    CreatedAt(tables, templates, draws, c, i);
    MakeJobShape(tables, Categories[c], templates[c], i, PerCategory * c + i + 1, draws[c][i]);
  }

  // --------------------------------------------------------------- getters

  /** `getJobById`: the first job whose id is `id`. */
  function GetJobById(jobs: seq<Job>, id: int): (r: Option<Job>)
    ensures r.None? <==> forall k :: 0 <= k < |jobs| ==> jobs[k].id != id
    ensures r.Some? ==> r.value.id == id && r.value in jobs
    ensures r.Some? ==> exists k :: 0 <= k < |jobs| && jobs[k] == r.value && forall j :: 0 <= j < k ==> jobs[j].id != id
  {
    match FirstIndex(jobs, (job: Job) => job.id == id)
    case None => None
    case Some(k) => Some(jobs[k])
  }

  /** `tags.some(tag => tag.toLowerCase().includes(q))`. */
  predicate SomeTagContains(tags: seq<string>, q: string) {
    exists k :: 0 <= k < |tags| && Contains(Lower(tags[k]), q)
  }

  /** The test of `filterJobs` for a lower-cased query `q`. */
  predicate JobMatches(job: Job, q: string) {
    Contains(Lower(job.title), q) || Contains(Lower(job.company), q) || SomeTagContains(job.tags, q)
  }

  /** `filterJobs`: everything for an empty query, otherwise the jobs the lower-cased query matches, in order. */
  function FilterJobs(jobs: seq<Job>, query: string): (r: seq<Job>)
    ensures query == "" ==> r == jobs
    ensures |r| <= |jobs|
    ensures query != "" ==> forall k :: 0 <= k < |r| ==> JobMatches(r[k], Lower(query))
  {
    if query == "" then jobs
    else Filter(jobs, (job: Job) => JobMatches(job, Lower(query)))
  }

  /** A job is kept exactly when it is in the list and the query is empty or matches it; an excluded job fails all three tests. */
  lemma FilterJobsMembers(jobs: seq<Job>, query: string, job: Job)
    ensures job in FilterJobs(jobs, query) <==> job in jobs && (query == "" || JobMatches(job, Lower(query)))
    ensures job in jobs && job !in FilterJobs(jobs, query) ==>
      !Contains(Lower(job.title), Lower(query)) && !Contains(Lower(job.company), Lower(query))
      && forall k :: 0 <= k < |job.tags| ==> !Contains(Lower(job.tags[k]), Lower(query))
  {
    if query != "" {
      FilterMembers(jobs, (j: Job) => JobMatches(j, Lower(query)), job);
    }
  }

  /** The filter keeps order: filtering a concatenation filters each part. */
  lemma FilterJobsAppend(a: seq<Job>, b: seq<Job>, query: string)
    ensures FilterJobs(a + b, query) == FilterJobs(a, query) + FilterJobs(b, query)
  {
    if query != "" {
      FilterAppend(a, b, (j: Job) => JobMatches(j, Lower(query)));
    }
  }

  /** Filtering twice by the same query is filtering once. */
  lemma FilterJobsIdempotent(jobs: seq<Job>, query: string)
    ensures FilterJobs(FilterJobs(jobs, query), query) == FilterJobs(jobs, query)
  {
    if query != "" {
      FilterKeepsAll(FilterJobs(jobs, query), (j: Job) => JobMatches(j, Lower(query)));
    }
  }

  /** Case never matters: a query and its lower-cased form select the same jobs. */
  lemma FilterJobsCaseInsensitive(jobs: seq<Job>, query: string)
    ensures FilterJobs(jobs, Lower(query)) == FilterJobs(jobs, query)
  {
    LowerIdempotent(query);
  }

  /** Lower-casing twice is lower-casing once. */
  lemma LowerIdempotent(s: string)
    ensures Lower(Lower(s)) == Lower(s)
  {
    assert forall k :: 0 <= k < |s| ==> Lower(Lower(s))[k] == Lower(s)[k];
  }
}
