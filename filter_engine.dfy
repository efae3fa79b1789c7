/**
 * The filtering effect of the application component: the state, industry and
 * search criteria and the visible list they select from the full job list.
 */
module FilterEngine {
  import opened Text
  import opened ListOps
  import opened Jobs

  /** The option of the state drop-down that disables the state filter. */
  const ALL_STATES: string := "All States"
  /** The option of the industry drop-down that disables the industry filter. */
  const ALL_INDUSTRIES: string := "All Industries"

  predicate StatePasses(job: Job, selectedState: string)
  {
    selectedState == ALL_STATES || job.state == selectedState
  }

  predicate IndustryPasses(job: Job, selectedIndustry: string)
  {
    selectedIndustry == ALL_INDUSTRIES || job.industry == selectedIndustry
  }

  /** The lower-cased term occurs in the lower-cased company name, address, first or last name. */
  predicate TermMatches(job: Job, searchTerm: string)
  {
    var term := Lower(searchTerm);
    || Includes(Lower(job.companyName), term)
    || Includes(Lower(job.address), term)
    || Includes(Lower(job.firstName), term)
    || Includes(Lower(job.lastName), term)
  }

  predicate SearchPasses(job: Job, searchTerm: string)
  {
    searchTerm == "" || TermMatches(job, searchTerm)
  }

  /** The three tests a job must all pass to be shown. */
  predicate Passes(job: Job, selectedState: string, selectedIndustry: string, searchTerm: string)
  {
    StatePasses(job, selectedState) && IndustryPasses(job, selectedIndustry) && SearchPasses(job, searchTerm)
  }

  /**
   * The visible list: the full list narrowed by one `filter` stage per active
   * criterion, state first, then industry, then search term.
   */
  function ComputeVisible(jobs: seq<Job>, selectedState: string, selectedIndustry: string, searchTerm: string): (r: seq<Job>)
    ensures forall job :: job in r <==> job in jobs && Passes(job, selectedState, selectedIndustry, searchTerm)
    ensures |r| <= |jobs|
  {
    var byState := if selectedState != ALL_STATES then Filter(jobs, (job: Job) => job.state == selectedState) else jobs;
    var byIndustry := if selectedIndustry != ALL_INDUSTRIES then Filter(byState, (job: Job) => job.industry == selectedIndustry) else byState;
    if searchTerm != "" then Filter(byIndustry, (job: Job) => TermMatches(job, searchTerm)) else byIndustry
  }

  /** The three stages together are a single filter by `Passes`. */
  lemma ComputeVisibleIsOneFilter(jobs: seq<Job>, selectedState: string, selectedIndustry: string, searchTerm: string, keep: Job -> bool)
    requires forall job :: keep(job) == Passes(job, selectedState, selectedIndustry, searchTerm)
    ensures ComputeVisible(jobs, selectedState, selectedIndustry, searchTerm) == Filter(jobs, keep)
  {
    var stateStage := (job: Job) => StatePasses(job, selectedState);
    var industryStage := (job: Job) => IndustryPasses(job, selectedIndustry);
    var searchStage := (job: Job) => SearchPasses(job, searchTerm);
    var stateAndIndustry := (job: Job) => StatePasses(job, selectedState) && IndustryPasses(job, selectedIndustry);
    GuardedFilter(jobs, selectedState != ALL_STATES, (job: Job) => job.state == selectedState, stateStage);
    var byState := Filter(jobs, stateStage);
    GuardedFilter(byState, selectedIndustry != ALL_INDUSTRIES, (job: Job) => job.industry == selectedIndustry, industryStage);
    var byIndustry := Filter(byState, industryStage);
    GuardedFilter(byIndustry, searchTerm != "", (job: Job) => TermMatches(job, searchTerm), searchStage);
    FilterFusion(jobs, stateStage, industryStage, stateAndIndustry);
    FilterFusion(jobs, stateAndIndustry, searchStage, keep);
  }

  /** The visible list keeps the source order: it is a subsequence of the full list. */
  lemma VisibleIsOrderedSubsequence(jobs: seq<Job>, selectedState: string, selectedIndustry: string, searchTerm: string)
    ensures IsSubsequence(ComputeVisible(jobs, selectedState, selectedIndustry, searchTerm), jobs)
  {
    var keep := (job: Job) => Passes(job, selectedState, selectedIndustry, searchTerm);
    ComputeVisibleIsOneFilter(jobs, selectedState, selectedIndustry, searchTerm, keep);
    FilterIsSubsequence(jobs, keep);
  }

  /** No job is added or duplicated: a passing job appears as often as in the full list, a failing one never. */
  lemma VisibleMultiplicity(jobs: seq<Job>, selectedState: string, selectedIndustry: string, searchTerm: string, job: Job)
    ensures multiset(ComputeVisible(jobs, selectedState, selectedIndustry, searchTerm))[job]
         == if Passes(job, selectedState, selectedIndustry, searchTerm) then multiset(jobs)[job] else 0
  {
    var keep := (j: Job) => Passes(j, selectedState, selectedIndustry, searchTerm);
    ComputeVisibleIsOneFilter(jobs, selectedState, selectedIndustry, searchTerm, keep);
    FilterMultiplicity(jobs, keep, job);
  }

  /** Filtering the visible list again with the same criteria changes nothing. */
  lemma ComputeVisibleIdempotent(jobs: seq<Job>, selectedState: string, selectedIndustry: string, searchTerm: string)
    ensures var visible := ComputeVisible(jobs, selectedState, selectedIndustry, searchTerm);
            ComputeVisible(visible, selectedState, selectedIndustry, searchTerm) == visible
  {
    var keep := (j: Job) => Passes(j, selectedState, selectedIndustry, searchTerm);
    var visible := ComputeVisible(jobs, selectedState, selectedIndustry, searchTerm);
    ComputeVisibleIsOneFilter(visible, selectedState, selectedIndustry, searchTerm, keep);
    FilterKeepsAllIff(visible, keep);
  }

  /** The visible list is the whole list exactly when every job passes the criteria. */
  lemma ShowsAllIff(jobs: seq<Job>, selectedState: string, selectedIndustry: string, searchTerm: string)
    ensures ComputeVisible(jobs, selectedState, selectedIndustry, searchTerm) == jobs
        <==> forall job :: job in jobs ==> Passes(job, selectedState, selectedIndustry, searchTerm)
  {
    var keep := (j: Job) => Passes(j, selectedState, selectedIndustry, searchTerm);
    ComputeVisibleIsOneFilter(jobs, selectedState, selectedIndustry, searchTerm, keep);
    FilterKeepsAllIff(jobs, keep);
  }

  /** The visible list is empty exactly when no job passes the criteria. */
  lemma ShowsNothingIff(jobs: seq<Job>, selectedState: string, selectedIndustry: string, searchTerm: string)
    ensures ComputeVisible(jobs, selectedState, selectedIndustry, searchTerm) == []
        <==> forall job :: job in jobs ==> !Passes(job, selectedState, selectedIndustry, searchTerm)
  {
    var keep := (j: Job) => Passes(j, selectedState, selectedIndustry, searchTerm);
    ComputeVisibleIsOneFilter(jobs, selectedState, selectedIndustry, searchTerm, keep);
    if forall job :: job in jobs ==> !Passes(job, selectedState, selectedIndustry, searchTerm) {
      FilterRejectsAll(jobs, keep);
    }
  }

  /** With the three default criteria nothing is filtered out. */
  lemma DefaultCriteriaShowAll(jobs: seq<Job>)
    ensures ComputeVisible(jobs, ALL_STATES, ALL_INDUSTRIES, "") == jobs
  {
  }

  /**
   * The search is case-insensitive in the term, and the guard on an empty term
   * only skips work: the empty term is included in every field anyway.
   */
  lemma SearchIgnoresCase(job: Job, searchTerm: string)
    ensures SearchPasses(job, searchTerm) == SearchPasses(job, Lower(searchTerm))
    ensures SearchPasses(job, searchTerm) == TermMatches(job, searchTerm)
  {
    LowerIdempotent(searchTerm);
    if searchTerm == "" {
      EmptyIncluded(Lower(job.companyName));
    }
  }

  /** A non-empty term passes exactly when it occurs, ignoring case, inside one of the four text fields. */
  lemma SearchPassesIffOccurs(job: Job, searchTerm: string)
    requires searchTerm != ""
    ensures SearchPasses(job, searchTerm) <==>
      || OccursIn(Lower(job.companyName), Lower(searchTerm))
      || OccursIn(Lower(job.address), Lower(searchTerm))
      || OccursIn(Lower(job.firstName), Lower(searchTerm))
      || OccursIn(Lower(job.lastName), Lower(searchTerm))
  {
    var term := Lower(searchTerm);
    IncludesIffOccurs(Lower(job.companyName), term);
    IncludesIffOccurs(Lower(job.address), term);
    IncludesIffOccurs(Lower(job.firstName), term);
    IncludesIffOccurs(Lower(job.lastName), term);
  }
}
