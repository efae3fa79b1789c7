/**
 * The state of the application component: the loaded job list, the three
 * filter criteria, the visible list derived from them, the contacted set and
 * the selected job. Each method is one user action followed by the effects
 * that action triggers, run to completion.
 */
module JobFinder {
  import opened Wrappers
  import opened Text
  import opened ListOps
  import opened Jobs
  import opened FilterEngine
  import opened Contacts

  /** No selection, or some visible job carries the selected job's `companyId`. */
  ghost predicate SelectionVisible(selected: Option<Job>, visible: seq<Job>)
  {
    selected.Some? ==> HasId(visible, selected.value.companyId)
  }

  class App {
    const jobs: seq<Job>
    var filteredJobs: seq<Job>
    var selectedState: string
    var selectedIndustry: string
    var searchTerm: string
    var contactedJobs: set<int>
    var selectedJob: Option<Job>

    /** The visible list is derived from the criteria, and the selection never points outside it. */
    ghost predicate Valid()
      reads this
    {
      && filteredJobs == ComputeVisible(jobs, selectedState, selectedIndustry, searchTerm)
      && SelectionVisible(selectedJob, filteredJobs)
    }

    /** The state once the job list is loaded: default criteria, everything visible, nothing contacted or selected. */
    constructor (listOfJobs: seq<Job>)
      ensures Valid()
      ensures jobs == listOfJobs && filteredJobs == listOfJobs
      ensures selectedState == ALL_STATES && selectedIndustry == ALL_INDUSTRIES && searchTerm == ""
      ensures contactedJobs == {} && selectedJob == None
    {
      jobs := listOfJobs;
      filteredJobs := listOfJobs;
      selectedState := ALL_STATES;
      selectedIndustry := ALL_INDUSTRIES;
      searchTerm := "";
      contactedJobs := {};
      selectedJob := None;
    }

    /**
     * The filtering effect: recompute the visible list, then drop the
     * selection when no visible job has its `companyId`.
     */
    method RefreshVisible()
      modifies this
      ensures Valid()
      ensures selectedJob == if old(selectedJob).Some? && !HasId(filteredJobs, old(selectedJob).value.companyId)
                             then None else old(selectedJob)
      ensures selectedState == old(selectedState) && selectedIndustry == old(selectedIndustry)
      ensures searchTerm == old(searchTerm) && contactedJobs == old(contactedJobs)
    {
      var filtered := ComputeVisible(jobs, selectedState, selectedIndustry, searchTerm);
      filteredJobs := filtered;
      if selectedJob.Some? {
        var id := selectedJob.value.companyId;
        if Find(filtered, (job: Job) => job.companyId == id).None? {
          selectedJob := None;
        }
      }
    }

    /**
     * New values for the three criteria, set together. A criterion set to the
     * value it already holds is no change; when at least one differs, the
     * filtering effect runs and then the selection is cleared unconditionally.
     */
    method UpdateCriteria(state: string, industry: string, term: string)
      requires Valid()
      modifies this
      ensures Valid()
      ensures selectedState == state && selectedIndustry == industry && searchTerm == term
      ensures filteredJobs == ComputeVisible(jobs, state, industry, term)
      ensures selectedJob == if (state, industry, term) != old((selectedState, selectedIndustry, searchTerm))
                             then None else old(selectedJob)
      ensures contactedJobs == old(contactedJobs)
    {
      if (state, industry, term) != (selectedState, selectedIndustry, searchTerm) {
        selectedState, selectedIndustry, searchTerm := state, industry, term;
        RefreshVisible();
        selectedJob := None;
      }
    }

    /** The state drop-down. */
    method SetSelectedState(state: string)
      requires Valid()
      modifies this
      ensures Valid()
      ensures selectedState == state
      ensures selectedIndustry == old(selectedIndustry) && searchTerm == old(searchTerm)
      ensures filteredJobs == ComputeVisible(jobs, state, selectedIndustry, searchTerm)
      ensures selectedJob == if state != old(selectedState) then None else old(selectedJob)
      ensures contactedJobs == old(contactedJobs)
    {
      UpdateCriteria(state, selectedIndustry, searchTerm);
    }

    /** The industry drop-down. */
    method SetSelectedIndustry(industry: string)
      requires Valid()
      modifies this
      ensures Valid()
      ensures selectedIndustry == industry
      ensures selectedState == old(selectedState) && searchTerm == old(searchTerm)
      ensures filteredJobs == ComputeVisible(jobs, selectedState, industry, searchTerm)
      ensures selectedJob == if industry != old(selectedIndustry) then None else old(selectedJob)
      ensures contactedJobs == old(contactedJobs)
    {
      UpdateCriteria(selectedState, industry, searchTerm);
    }

    /** The search box. */
    method SetSearchTerm(term: string)
      requires Valid()
      modifies this
      ensures Valid()
      ensures searchTerm == term
      ensures selectedState == old(selectedState) && selectedIndustry == old(selectedIndustry)
      ensures filteredJobs == ComputeVisible(jobs, selectedState, selectedIndustry, term)
      ensures selectedJob == if term != old(searchTerm) then None else old(selectedJob)
      ensures contactedJobs == old(contactedJobs)
    {
      UpdateCriteria(selectedState, selectedIndustry, term);
    }

    /** Any criterion other than its default is in force. */
    function HasActiveFilters(): (r: bool)
      reads this
      ensures Valid() && !r ==> filteredJobs == jobs
    {
      selectedState != ALL_STATES || selectedIndustry != ALL_INDUSTRIES || searchTerm != ""
    }

    /**
     * The "Clear" button: all three criteria back to their defaults. The
     * whole list is shown again and, when some filter was active, the
     * selection is gone.
     */
    method ClearFilters()
      requires Valid()
      modifies this
      ensures Valid()
      ensures selectedState == ALL_STATES && selectedIndustry == ALL_INDUSTRIES && searchTerm == ""
      ensures !HasActiveFilters() && filteredJobs == jobs
      ensures selectedJob == if old(HasActiveFilters()) then None else old(selectedJob)
      ensures contactedJobs == old(contactedJobs)
    {
      UpdateCriteria(ALL_STATES, ALL_INDUSTRIES, "");
    }

    /**
     * A click on a job card or a map marker: the job becomes the selection,
     * and the filtering effect keeps it only if a visible job has its `companyId`.
     */
    method SelectJob(job: Job)
      requires Valid()
      modifies this
      ensures Valid()
      ensures selectedJob == if HasId(filteredJobs, job.companyId) then Some(job) else None
      ensures filteredJobs == old(filteredJobs)
      ensures selectedState == old(selectedState) && selectedIndustry == old(selectedIndustry)
      ensures searchTerm == old(searchTerm) && contactedJobs == old(contactedJobs)
    {
      selectedJob := Some(job);
      RefreshVisible();
    }

    /** The contact marker of a job card is on. */
    function IsContacted(id: int): bool
      reads this
    {
      id in contactedJobs
    }

    /** The number shown in the "contacted" badge. */
    function ContactedCount(): nat
      reads this
    {
      |contactedJobs|
    }

    /**
     * The contact button: a copy of the contacted set with `id` removed when
     * present and added when absent. Nothing else changes.
     */
    method ToggleJobContact(id: int)
      requires Valid()
      modifies this`contactedJobs
      ensures Valid()
      ensures contactedJobs == Toggled(old(contactedJobs), id)
      ensures IsContacted(id) == !old(IsContacted(id))
      ensures forall other :: other != id ==> IsContacted(other) == old(IsContacted(other))
      ensures ContactedCount() == if old(IsContacted(id)) then old(ContactedCount()) - 1 else old(ContactedCount()) + 1
    {
      var newContactedJobs := contactedJobs;
      if id in newContactedJobs {
        newContactedJobs := newContactedJobs - {id};
      } else {
        newContactedJobs := newContactedJobs + {id};
      }
      contactedJobs := newContactedJobs;
    }
  }

  /**
   * With unique identifiers, a selected job taken from the list is itself
   * visible whenever the application state is consistent.
   */
  lemma SelectedJobIsVisible(jobs: seq<Job>, visible: seq<Job>, selected: Option<Job>,
                             selectedState: string, selectedIndustry: string, searchTerm: string)
    requires UniqueIds(jobs)
    requires visible == ComputeVisible(jobs, selectedState, selectedIndustry, searchTerm)
    requires SelectionVisible(selected, visible)
    requires selected.Some? && selected.value in jobs
    ensures selected.value in visible
    ensures Passes(selected.value, selectedState, selectedIndustry, searchTerm)
  {
    IdLocatesJob(jobs, visible, selected.value);
  }

  /**
   * A term holding a letter that appears in neither case in the four searched
   * fields matches nothing.
   */
  lemma NoMatchWithoutLetter(job: Job, searchTerm: string, c: char)
    requires 'a' <= c <= 'z' && c in Lower(searchTerm)
    requires c !in job.companyName && (c as int - 32) as char !in job.companyName
    requires c !in job.address && (c as int - 32) as char !in job.address
    requires c !in job.firstName && (c as int - 32) as char !in job.firstName
    requires c !in job.lastName && (c as int - 32) as char !in job.lastName
    ensures !TermMatches(job, searchTerm)
  {
    var term := Lower(searchTerm);
    LowerLacksLetter(job.companyName, c);
    MissingCharNotIncluded(Lower(job.companyName), term, c);
    LowerLacksLetter(job.address, c);
    MissingCharNotIncluded(Lower(job.address), term, c);
    LowerLacksLetter(job.firstName, c);
    MissingCharNotIncluded(Lower(job.firstName), term, c);
    LowerLacksLetter(job.lastName, c);
    MissingCharNotIncluded(Lower(job.lastName), term, c);
  }

  /** Two jobs in different states; choosing one state hides the other job and the selection on it. */
  method StateFilterScenario()
  {
    var a := Job(1, "Acme", "Ann", "Lee", "1 High St", "0400", "a@x", "NSW", "Technology");
    var b := Job(2, "Bolt", "Bob", "Ng", "2 Low St", "0411", "b@x", "VIC", "Technology");
    var app := new App([a, b]);
    app.SelectJob(a);
    assert HasId(app.filteredJobs, a.companyId) by { assert a in app.filteredJobs; }
    assert app.selectedJob == Some(a);
    app.SetSelectedState("VIC");
    assert app.filteredJobs == [b] by {
      assert [a, b][1..] == [b] && [b][1..] == [];
      assert app.filteredJobs == Filter([a, b], (job: Job) => job.state == "VIC");
    }
    assert app.selectedJob == None;
    app.SelectJob(b);
    assert HasId(app.filteredJobs, b.companyId) by { assert b in app.filteredJobs; }
    assert app.selectedJob == Some(b);
  }

  /**
   * In the scenario's list, the first job is outside "VIC" and no field of the
   * second holds a 'z' in either case, so "zzz" in "VIC" shows nothing.
   */
  lemma NothingMatchesZzzInVic(a: Job, b: Job)
    requires a == Job(1, "Acme", "Ann", "Lee", "1 High St", "0400", "a@x", "NSW", "Technology")
    requires b == Job(2, "Bolt", "Bob", "Ng", "2 Low St", "0411", "b@x", "VIC", "Technology")
    ensures ComputeVisible([a, b], "VIC", ALL_INDUSTRIES, "zzz") == []
  {
    assert !StatePasses(a, "VIC");
    assert Lower("zzz")[0] == 'z';
    NoMatchWithoutLetter(b, "zzz", 'z');
    ShowsNothingIff([a, b], "VIC", ALL_INDUSTRIES, "zzz");
  }

  /** With the "VIC" filter on and its job selected, a search that matches nothing empties the list and the selection. */
  method SearchScenario(a: Job, b: Job)
    requires a == Job(1, "Acme", "Ann", "Lee", "1 High St", "0400", "a@x", "NSW", "Technology")
    requires b == Job(2, "Bolt", "Bob", "Ng", "2 Low St", "0411", "b@x", "VIC", "Technology")
  {
    var app := new App([a, b]);
    app.SetSelectedState("VIC");
    assert b in app.filteredJobs;
    app.SelectJob(b);
    assert app.selectedJob == Some(b);
    app.SetSearchTerm("zzz");
    NothingMatchesZzzInVic(a, b);
    assert app.filteredJobs == [];
    assert app.selectedJob == None;
  }

  /** With all three criteria set, "Clear" restores the defaults and the whole list, with nothing selected. */
  method ClearScenario()
  {
    var a := Job(1, "Acme", "Ann", "Lee", "1 High St", "0400", "a@x", "NSW", "Technology");
    var b := Job(2, "Bolt", "Bob", "Ng", "2 Low St", "0411", "b@x", "VIC", "Technology");
    var app := new App([a, b]);
    app.SetSelectedState("VIC");
    app.SetSelectedIndustry("Technology");
    app.SetSearchTerm("foo");
    assert app.HasActiveFilters();
    app.ClearFilters();
    assert app.selectedState == ALL_STATES && app.selectedIndustry == ALL_INDUSTRIES && app.searchTerm == "";
    assert app.filteredJobs == [a, b];
    assert app.selectedJob == None;
  }

  /** Toggling one job's contact twice leaves the contacted set and its count as they were. */
  method ContactScenario()
  {
    var a := Job(1, "Acme", "Ann", "Lee", "1 High St", "0400", "a@x", "NSW", "Technology");
    var app := new App([a]);
    app.ToggleJobContact(1);
    assert app.IsContacted(1) && app.ContactedCount() == 1;
    app.SetSelectedState("VIC");
    app.ToggleJobContact(1);
    assert app.contactedJobs == {} && app.ContactedCount() == 0;
  }
}
