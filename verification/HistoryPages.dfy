/** Histories as a lookup reads them: one page of observations at a time, each page with the
    whole history's labels and uncertainty. */
module HistoryPages {
  import opened Wrappers
  import opened RunVocabulary
  import opened Histories
  import opened HistoryReports
  import opened Paging

  datatype LookupError = InvalidRead | InvalidMemory | InvalidHistory(error: QueryError)

  datatype HistoryPage<R> = HistoryPage(
    labels: seq<string>,
    observations: seq<Observation<R>>,
    uncertainty: seq<Marker>,
    offset: nat,
    total: nat,
    nextOffset: Option<nat>)

  predicate PageRequest(offset: nat, limit: nat) {
    offset <= MAX_MEMORY_OFFSET && 1 <= limit <= MAX_MEMORY_LIMIT
  }

  /** One page of a history, or the first refusal: of the request, the query, the bounds or
      the count. */
  function ReadPage<R>(idsValid: bool, full: Result<Report<R>, QueryError>, offset: nat, limit: nat)
    : Result<HistoryPage<R>, LookupError>
  {
    if !idsValid || !PageRequest(offset, limit) then Err(InvalidRead)
    else match full
      case Err(e) => Err(InvalidHistory(e))
      case Ok(report) =>
        var page := PageBounds(offset, limit, |report.observations|);
        if page.None? || |report.observations| > Paging.MAX_U32 then Err(InvalidMemory)
        else
          Ok(HistoryPage(report.labels, report.observations[page.value.start..page.value.end], report.uncertainty,
                         offset, |report.observations|, page.value.next))
  }

  /** Cut one page out of a complete report. */
  method Page<R>(report: Report<R>, offset: nat, limit: nat) returns (r: Result<HistoryPage<R>, LookupError>)
    requires PageRequest(offset, limit)
    ensures r == ReadPage(true, Ok(report), offset, limit)
  {
    var total := |report.observations|;
    var bounds := PageBounds(offset, limit, total);
    if bounds.None? || total > Paging.MAX_U32 { return Err(InvalidMemory); }
    var page := report.(observations := report.observations[bounds.value.start..bounds.value.end]);
    return Ok(HistoryPage(page.labels, page.observations, page.uncertainty, offset, total, bounds.value.next));
  }

  method ReadPossessionHistory(ctx: Context, objectId: string, sets: seq<RecordSet<Possession>>,
                               valid: RecordSet<Possession> -> bool, offset: nat, limit: nat)
    returns (r: Result<HistoryPage<Possession>, LookupError>)
    ensures r == ReadPage(CheckId(objectId), PossessionHistory(ctx, objectId, sets, valid), offset, limit)
  {
    hide PossessionHistory, CheckId, PageBounds;
    if !CheckId(objectId) || !PageRequest(offset, limit) { return Err(InvalidRead); }
    var history := QueryEvidenceHistory(ctx, objectId, sets, valid);
    if history.Err? { return Err(InvalidHistory(history.error)); }
    r := Page(history.value, offset, limit);
  }

  method ReadKnowledgeHistory(ctx: Context, characterId: string, topicId: Option<string>,
                              sets: seq<RecordSet<Knowledge>>, valid: RecordSet<Knowledge> -> bool, offset: nat,
                              limit: nat)
    returns (r: Result<HistoryPage<Knowledge>, LookupError>)
    ensures r == ReadPage(CheckId(characterId) && (topicId.Some? ==> CheckId(topicId.value)),
                          KnowledgeHistory(ctx, characterId, topicId, sets, valid), offset, limit)
  {
    hide KnowledgeHistory, CheckId, PageBounds;
    if !CheckId(characterId) || (topicId.Some? && !CheckId(topicId.value)) || !PageRequest(offset, limit) {
      return Err(InvalidRead);
    }
    var history := QueryKnowledgeHistory(ctx, characterId, topicId, sets, valid);
    if history.Err? { return Err(InvalidHistory(history.error)); }
    r := Page(history.value, offset, limit);
  }

  method ReadPromiseHistory(ctx: Context, promiseId: string, sets: seq<RecordSet<Promise>>,
                            valid: RecordSet<Promise> -> bool, offset: nat, limit: nat)
    returns (r: Result<HistoryPage<Promise>, LookupError>)
    ensures r == ReadPage(CheckId(promiseId), PromiseHistory(ctx, promiseId, sets, valid), offset, limit)
  {
    hide PromiseHistory, CheckId, PageBounds;
    if !CheckId(promiseId) || !PageRequest(offset, limit) { return Err(InvalidRead); }
    var history, _ := QueryPromiseHistory(ctx, promiseId, sets, valid);
    if history.Err? { return Err(InvalidHistory(history.error)); }
    r := Page(history.value, offset, limit);
  }

  // ----- Reading the whole history -----

  /** Read a page, then the one its next offset names, at most n more times. */
  function ReadOn<R>(full: Result<Report<R>, QueryError>, offset: nat, limit: nat, n: nat)
    : Result<seq<HistoryPage<R>>, LookupError>
    decreases n
  {
    match ReadPage(true, full, offset, limit)
    case Err(e) => Err(e)
    case Ok(page) =>
      if page.nextOffset.None? || n == 0 then Ok([page])
      else match ReadOn(full, page.nextOffset.value, limit, n - 1)
        case Err(e) => Err(e)
        case Ok(rest) => Ok([page] + rest)
  }

  function Joined<R>(pages: seq<HistoryPage<R>>): seq<Observation<R>> {
    if pages == [] then [] else pages[0].observations + Joined(pages[1..])
  }

  ghost predicate SameMetadata<R>(pages: seq<HistoryPage<R>>, report: Report<R>) {
    forall k :: 0 <= k < |pages| ==>
      && pages[k].labels == report.labels && pages[k].uncertainty == report.uncertainty
      && pages[k].total == |report.observations|
  }

  lemma {:induction false} PagesFollow<R>(report: Report<R>, offset: nat, limit: nat, n: nat)
    requires |report.observations| <= Paging.MAX_U32 && offset + n >= |report.observations|
    ensures var pages, all := ReadOn(Ok(report), offset, limit, n), Follow(report.observations, offset, limit);
            && (pages.Ok? <==> all.Some?)
            && (pages.Ok? ==> Joined(pages.value) == all.value && SameMetadata(pages.value, report))
            && (pages.Ok? ==> pages.value != [] && pages.value[|pages.value| - 1].nextOffset.None?)
    decreases n
  {
    var page := PageBounds(offset, limit, |report.observations|);
    if page.Some? {
      PageIsSlice(offset, limit, |report.observations|);
      var first := ReadPage(true, Ok(report), offset, limit).value;
      assert [first][1..] == [];
      if page.value.next.Some? {
        PagesFollow(report, page.value.next.value, limit, n - 1);
        var rest := ReadOn(Ok(report), page.value.next.value, limit, n - 1);
        if rest.Ok? { assert ([first] + rest.value)[1..] == rest.value; }
      }
    }
  }

  /** Following next_offset from zero reads every observation once and in order, with the
      whole history's labels and markers on each page, exactly when the last needed offset is
      within the cap; otherwise the reader is refused. */
  lemma HistoryPagesConcatenate<R>(report: Report<R>, limit: nat)
    requires 1 <= limit <= MAX_MEMORY_LIMIT && |report.observations| <= Paging.MAX_U32
    ensures var n := |report.observations|;
            var pages := ReadOn(Ok(report), 0, limit, n);
            && (pages.Ok? <==> LastOffset(n, limit) <= MAX_MEMORY_OFFSET)
            && (pages.Ok? ==> Joined(pages.value) == report.observations && SameMetadata(pages.value, report)
                              && pages.value != [] && pages.value[|pages.value| - 1].nextOffset.None?)
  {
    hide ReadOn, Joined, SameMetadata, LastOffset, Follow;
    PagesFollow(report, 0, limit, |report.observations|);
    PagesConcatenate(report.observations, limit);
  }
}
