/** The status filter of the file view: a single selected status (None for
    "all"), the current list of view files, and the filter record derived
    from the two. The file-list subscription and `filterStatus` are the two
    inputs; publishing a filter record and asking the file service to
    re-apply its filters are the outputs. */
module ViewFileFilter {
  import opened Wrappers
  import opened Seqs

  /** The status of a view file. The five statuses the filter shows are
      named; `Other` stands for any further status of the file model. */
  datatype Status = Default | Queued | Downloading | Downloaded | Stopped | Other(name: string)

  datatype ViewFile = ViewFile(name: string, status: Status)

  /** The published filter record: five "enabled" flags and six "selected"
      flags. */
  datatype FilterView = FilterView(
    downloadedEnabled: bool,
    downloadingEnabled: bool,
    queuedEnabled: bool,
    stoppedEnabled: bool,
    defaultEnabled: bool,
    allSelected: bool,
    downloadedSelected: bool,
    downloadingSelected: bool,
    queuedSelected: bool,
    stoppedSelected: bool,
    defaultSelected: bool)

  /** `files` is the last list received from the file service, `criteria`
      the status criteria's selected status, `view` the last filter record
      published (None until the first one). */
  datatype FilterState = FilterState(files: seq<ViewFile>, criteria: Option<Status>, view: Option<FilterView>)

  datatype FilterEffect = PublishFilter(filter: FilterView) | ReapplyFilters

  datatype Update = Update(state: FilterState, effects: seq<FilterEffect>)

  datatype FilterEvent = SelectStatus(status: Option<Status>) | FilesChanged(files: seq<ViewFile>)

  /** `StatusFilterCriteria.meetsCriteria`. */
  predicate MeetsCriteria(criteria: Option<Status>, file: ViewFile) {
    criteria.None? || criteria.value == file.status
  }

  /** With no status selected every file passes; with one selected, exactly
      the files of that status pass. */
  lemma CriteriaSemantics(criteria: Option<Status>, files: seq<ViewFile>)
    ensures criteria.None? ==> forall i :: 0 <= i < |files| ==> MeetsCriteria(criteria, files[i])
    ensures criteria.Some? ==> forall i :: 0 <= i < |files| ==>
              (MeetsCriteria(criteria, files[i]) <==> files[i].status == criteria.value)
  {
  }

  /** `isStatusEnabled`: "all" is always enabled; a status is enabled
      exactly when some current file has it. */
  function IsStatusEnabled(files: seq<ViewFile>, status: Option<Status>): (r: bool)
    ensures status.None? ==> r
    ensures status.Some? ==> (r <==> exists i :: 0 <= i < |files| && files[i].status == status.value)
  {
    status.None? || FindIndex(files, (f: ViewFile) => f.status == status.value) >= 0
  }

  /** A status is enabled exactly when a criteria pinned to it would let at
      least one current file through. */
  lemma EnabledIffSomeFileMeetsPinnedCriteria(files: seq<ViewFile>, status: Status)
    ensures IsStatusEnabled(files, Some(status)) <==>
            exists i :: 0 <= i < |files| && MeetsCriteria(Some(status), files[i])
  {
  }

  /** `updateState`: the filter record for the given files and criteria. */
  function ComputeFilter(files: seq<ViewFile>, criteria: Option<Status>): FilterView
  {
    FilterView(
      downloadedEnabled := IsStatusEnabled(files, Some(Downloaded)),
      downloadingEnabled := IsStatusEnabled(files, Some(Downloading)),
      queuedEnabled := IsStatusEnabled(files, Some(Queued)),
      stoppedEnabled := IsStatusEnabled(files, Some(Stopped)),
      defaultEnabled := IsStatusEnabled(files, Some(Default)),
      allSelected := criteria == None,
      downloadedSelected := criteria == Some(Downloaded),
      downloadingSelected := criteria == Some(Downloading),
      queuedSelected := criteria == Some(Queued),
      stoppedSelected := criteria == Some(Stopped),
      defaultSelected := criteria == Some(Default))
  }

  function Flag(b: bool): nat { if b then 1 else 0 }

  /** How many of the six "selected" flags are set. */
  function SelectedCount(v: FilterView): nat {
    Flag(v.allSelected) + Flag(v.downloadedSelected) + Flag(v.downloadingSelected)
      + Flag(v.queuedSelected) + Flag(v.stoppedSelected) + Flag(v.defaultSelected)
  }

  /** A criteria the filter record can show as selected: "all" or one of
      the five named statuses. */
  predicate Shown(criteria: Option<Status>) {
    criteria.None? || !criteria.value.Other?
  }

  /** Some current file has the status. */
  predicate Present(files: seq<ViewFile>, status: Status) {
    exists i :: 0 <= i < |files| && files[i].status == status
  }

  /** The record's meaning: each enabled flag says whether some current
      file has that status; each selected flag says whether the criteria is
      that value; at most one selected flag is set, and exactly one when the
      criteria is "all" or one of the five named statuses. */
  lemma FilterFlags(files: seq<ViewFile>, criteria: Option<Status>)
    ensures var v := ComputeFilter(files, criteria);
            && (v.downloadedEnabled <==> Present(files, Downloaded))
            && (v.downloadingEnabled <==> Present(files, Downloading))
            && (v.queuedEnabled <==> Present(files, Queued))
            && (v.stoppedEnabled <==> Present(files, Stopped))
            && (v.defaultEnabled <==> Present(files, Default))
            && (v.allSelected <==> criteria.None?)
            && (v.downloadedSelected <==> criteria == Some(Downloaded))
            && (v.downloadingSelected <==> criteria == Some(Downloading))
            && (v.queuedSelected <==> criteria == Some(Queued))
            && (v.stoppedSelected <==> criteria == Some(Stopped))
            && (v.defaultSelected <==> criteria == Some(Default))
    ensures SelectedCount(ComputeFilter(files, criteria)) <= 1
    ensures SelectedCount(ComputeFilter(files, criteria)) == 1 <==> Shown(criteria)
  {
  }

  /** The state at construction: no files, "all" selected, nothing
      published yet. */
  function Initial(): (st: FilterState)
    ensures st.files == [] && st.criteria.None? && st.view.None?
  {
    FilterState([], None, None)
  }

  /** Recompute and publish the filter record. */
  function Publish(files: seq<ViewFile>, criteria: Option<Status>): (u: Update)
    ensures u.state.files == files && u.state.criteria == criteria
    ensures u.state.view == Some(ComputeFilter(files, criteria))
    ensures u.effects == [PublishFilter(ComputeFilter(files, criteria))]
  {
    var v := ComputeFilter(files, criteria);
    Update(FilterState(files, criteria, Some(v)), [PublishFilter(v)])
  }

  /** `filterStatus(status)`. Selecting the selected status, or a status no
      file has, does nothing. Otherwise the criteria is set, the recomputed
      record is published, and then the file service is asked to re-apply
      its filters. */
  function FilterStatus(st: FilterState, status: Option<Status>): (u: Update)
    ensures status == st.criteria ==> u == Update(st, [])
    ensures status != st.criteria && status.Some? &&
            (forall i :: 0 <= i < |st.files| ==> st.files[i].status != status.value) ==>
              u == Update(st, [])
    ensures status != st.criteria &&
            (status.None? || exists i :: 0 <= i < |st.files| && st.files[i].status == status.value) ==>
              && u.state == FilterState(st.files, status, Some(ComputeFilter(st.files, status)))
              && u.effects == [PublishFilter(ComputeFilter(st.files, status)), ReapplyFilters]
  {
    if st.criteria == status then Update(st, [])
    else if IsStatusEnabled(st.files, status) then
      var published := Publish(st.files, status);
      Update(published.state, published.effects + [ReapplyFilters])
    else Update(st, [])
  }

  /** The file-list subscription: the files are replaced and the record
      republished; the selected status stays, even when no file has it any
      more. */
  function OnFilesChanged(st: FilterState, files: seq<ViewFile>): (u: Update)
    ensures u.state.criteria == st.criteria
    ensures u.state.files == files
    ensures u.effects == [PublishFilter(ComputeFilter(files, st.criteria))]
  {
    Publish(files, st.criteria)
  }

  function Step(st: FilterState, e: FilterEvent): Update {
    match e
    case SelectStatus(status) => FilterStatus(st, status)
    case FilesChanged(files) => OnFilesChanged(st, files)
  }

  /** The last published record agrees with the current files and
      criteria. */
  predicate Fresh(st: FilterState) {
    st.view.None? || st.view.value == ComputeFilter(st.files, st.criteria)
  }

  /** Every published record is the record of the state it leaves behind. */
  predicate PublishesFresh(u: Update) {
    forall i :: 0 <= i < |u.effects| && u.effects[i].PublishFilter? ==>
      u.effects[i].filter == ComputeFilter(u.state.files, u.state.criteria)
  }

  /** One step keeps the published record fresh, publishes at most one
      record and re-applies filters only right after publishing one. */
  lemma StepKeepsFresh(st: FilterState, e: FilterEvent)
    requires Fresh(st)
    ensures Fresh(Step(st, e).state)
    ensures PublishesFresh(Step(st, e))
    ensures var effs := Step(st, e).effects;
            && |effs| <= 2
            && (|effs| > 0 ==> effs[0].PublishFilter?)
            && (forall i :: 1 <= i < |effs| ==> effs[i] == ReapplyFilters)
  {
  }

  /** Events applied in order; the result collects every effect. */
  function Run(st: FilterState, events: seq<FilterEvent>): (u: Update)
    decreases |events|
  {
    if |events| == 0 then Update(st, [])
    else
      var first := Step(st, events[0]);
      var rest := Run(first.state, events[1..]);
      Update(rest.state, first.effects + rest.effects)
  }

  /** Once a record has been published, every later state keeps the last
      published record equal to the record of its files and criteria. */
  lemma {:induction false} RunKeepsFresh(st: FilterState, events: seq<FilterEvent>)
    requires Fresh(st)
    ensures Fresh(Run(st, events).state)
    ensures st.view.Some? ==> Run(st, events).state.view.Some?
    decreases |events|
  {
    if |events| > 0 {
      StepKeepsFresh(st, events[0]);
      RunKeepsFresh(Step(st, events[0]).state, events[1..]);
    }
  }

  /** From construction, the default record stays the last published one
      exactly as long as no file list has arrived: until then every
      `filterStatus` call is refused (no file has any status, and "all" is
      already selected), so the state is the initial one and nothing is
      emitted. After the first file list, the last published record is
      always that of the current files and criteria. */
  lemma {:induction false} RunFromInitial(events: seq<FilterEvent>)
    ensures Run(Initial(), events).state.view.None? <==>
            forall i :: 0 <= i < |events| ==> events[i].SelectStatus?
    ensures (forall i :: 0 <= i < |events| ==> events[i].SelectStatus?) ==>
              Run(Initial(), events) == Update(Initial(), [])
    ensures var u := Run(Initial(), events);
            u.state.view.Some? ==> u.state.view.value == ComputeFilter(u.state.files, u.state.criteria)
    decreases |events|
  {
    RunKeepsFresh(Initial(), events);
    if |events| > 0 {
      var first := Step(Initial(), events[0]);
      if events[0].SelectStatus? {
        assert first == Update(Initial(), []);
        RunFromInitial(events[1..]);
        assert forall i :: 1 <= i < |events| ==> events[i] == events[1..][i - 1];
      } else {
        RunKeepsFresh(first.state, events[1..]);
      }
    }
  }

  /** One step changes the criteria only through `filterStatus`, and only
      to "all" or to a status some current file has. */
  lemma SelectionOnlyEnabled(st: FilterState, e: FilterEvent)
    ensures var c := Step(st, e).state.criteria;
            c != st.criteria ==> e == SelectStatus(c) && IsStatusEnabled(st.files, c)
  {
  }

  /** Only `filterStatus` changes the criteria: the final criteria is the
      initial one, or the status of some `filterStatus` event that, at the
      moment it was handled, was "all" or a status some file had. */
  lemma {:induction false} RunCriteriaOnlyFromSelection(st: FilterState, events: seq<FilterEvent>)
    ensures var c := Run(st, events).state.criteria;
            || c == st.criteria
            || exists i :: 0 <= i < |events| && events[i] == SelectStatus(c)
                 && IsStatusEnabled(Run(st, events[..i]).state.files, c)
    decreases |events|
  {
    if |events| > 0 {
      var next := Step(st, events[0]).state;
      RunCriteriaOnlyFromSelection(next, events[1..]);
      SelectionOnlyEnabled(st, events[0]);
      var c := Run(st, events).state.criteria;
      assert c == Run(next, events[1..]).state.criteria;
      if c != next.criteria {
        var i :| 0 <= i < |events[1..]| && events[1..][i] == SelectStatus(c)
                 && IsStatusEnabled(Run(next, events[1..][..i]).state.files, c);
        assert events[..i + 1][1..] == events[1..][..i];
        assert Run(st, events[..i + 1]).state == Run(next, events[1..][..i]).state;
        assert events[i + 1] == SelectStatus(c);
      } else if next.criteria != st.criteria {
        assert Run(st, events[..0]).state == st;
        assert events[0] == SelectStatus(c);
      }
    }
  }
}
