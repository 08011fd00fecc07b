/** TimeSlotTemplateService: the table of daily delivery windows. A template is a start
    and an end time of day; no two templates share the same pair. */
module TemplateTable {
  import opened Common
  import opened Entities
  import opened Repositories

  /** The body of a create or update request. */
  datatype TimeSlotTemplateRequest = TimeSlotTemplateRequest(
    startTime: Option<LocalTime>,
    endTime: Option<LocalTime>,
    isActive: Option<bool>)

  /** `isTimeRangeValid`: a missing time is left to the not-null checks; otherwise the
      start must come strictly before the end. */
  function IsTimeRangeValid(request: TimeSlotTemplateRequest): (valid: bool)
    ensures request.startTime.None? || request.endTime.None? ==> valid
    ensures request.startTime.Some? && request.endTime.Some? ==>
            (valid <==> request.startTime.value < request.endTime.value)
  {
    request.startTime.None? || request.endTime.None? || request.startTime.value < request.endTime.value
  }

  /** A request that passes the declared validation: both times present, start before end. */
  predicate ValidRequest(request: TimeSlotTemplateRequest) {
    request.startTime.Some? && request.endTime.Some? && IsTimeRangeValid(request)
  }

  /** A validated request describes a window of positive length: equal times and
      reversed times are both refused. */
  lemma AcceptedWindowNonEmpty(request: TimeSlotTemplateRequest)
    ensures ValidRequest(request) ==> request.endTime.value - request.startTime.value > 0
    ensures request.startTime.Some? && request.startTime == request.endTime ==> !ValidRequest(request)
  {
  }

  const TemplateNotFound := NotFound("time slot template")
  const DuplicateTemplate := Conflict("a time slot template already exists for that time range")

  /** `applyChanges`: the times are stored as given and a null isActive reads as true. */
  function ApplyTemplateChanges(entity: TimeSlotTemplate, request: TimeSlotTemplateRequest): (r: TimeSlotTemplate)
    requires request.startTime.Some? && request.endTime.Some?
    ensures r.id == entity.id
    ensures r.startTime == request.startTime.value && r.endTime == request.endTime.value
    ensures r.isActive <==> request.isActive != Some(false)
  {
    entity.(startTime := request.startTime.value,
            endTime := request.endTime.value,
            isActive := if request.isActive.Some? then request.isActive.value else true)
  }

  predicate SameWindow(a: TimeSlotTemplate, b: TimeSlotTemplate) {
    a.startTime == b.startTime && a.endTime == b.endTime
  }

  /** No two templates share a start and an end. */
  ghost predicate UniqueWindows(rows: map<Id, TimeSlotTemplate>) {
    forall a, b | a in rows && b in rows && a != b :: !SameWindow(rows[a], rows[b])
  }

  /** Every template's window has positive length. */
  ghost predicate NonEmptyWindows(rows: map<Id, TimeSlotTemplate>) {
    forall id | id in rows :: rows[id].startTime < rows[id].endTime
  }

  /** Saving a template whose pair no other template holds keeps the pairs unique. */
  lemma SaveKeepsUniqueWindows(rows: map<Id, TimeSlotTemplate>, template: TimeSlotTemplate)
    requires UniqueWindows(rows)
    requires forall id | id in rows && id != template.id :: !SameWindow(rows[id], template)
    ensures UniqueWindows(rows[template.id := template])
  {
  }

  class TimeSlotTemplateService {
    const templates: TimeSlotTemplateRepository

    ghost predicate Valid()
      reads this, templates
    {
      templates.Valid()
    }

    constructor (templates: TimeSlotTemplateRepository)
      ensures this.templates == templates
    {
      this.templates := templates;
    }

    /** `create`: refused when any template already has the pair. */
    method Create(request: TimeSlotTemplateRequest) returns (result: Result<TimeSlotTemplate>)
      requires Valid() && ValidRequest(request)
      modifies templates
      ensures Valid()
      ensures ExistsByStartTimeAndEndTime(old(templates.rows), request.startTime.value, request.endTime.value)
              <==> result == Failure(DuplicateTemplate)
      ensures !ExistsByStartTimeAndEndTime(old(templates.rows), request.startTime.value, request.endTime.value)
              ==> result.Success?
      ensures result.Failure? ==> templates.rows == old(templates.rows)
      ensures result.Success? ==>
        && result.value.id !in old(templates.rows)
        && templates.rows == old(templates.rows)[result.value.id := result.value]
        && result.value == ApplyTemplateChanges(result.value, request)
      ensures UniqueWindows(old(templates.rows)) ==> UniqueWindows(templates.rows)
      ensures NonEmptyWindows(old(templates.rows)) ==> NonEmptyWindows(templates.rows)
    {
      if ExistsByStartTimeAndEndTime(templates.rows, request.startTime.value, request.endTime.value) {
        return Failure(DuplicateTemplate);
      }
      var blank := TimeSlotTemplate(0, 0, 0, false);
      ghost var rows0 := templates.rows;
      var saved := templates.Insert(ApplyTemplateChanges(blank, request));
      if UniqueWindows(rows0) {
        SaveKeepsUniqueWindows(rows0, saved);
      }
      result := Success(saved);
    }

    /** `update`: the template must exist, and no other template may hold the pair. */
    method Update(id: Id, request: TimeSlotTemplateRequest) returns (result: Result<TimeSlotTemplate>)
      requires Valid() && ValidRequest(request)
      modifies templates
      ensures Valid()
      ensures id !in old(templates.rows) ==> result == Failure(TemplateNotFound)
      ensures id in old(templates.rows) ==>
        (ExistsByStartTimeAndEndTimeAndIdNot(old(templates.rows), request.startTime.value, request.endTime.value, id)
         <==> result == Failure(DuplicateTemplate))
      ensures id in old(templates.rows)
              && !ExistsByStartTimeAndEndTimeAndIdNot(old(templates.rows), request.startTime.value, request.endTime.value, id)
              ==> result.Success?
      ensures result.Failure? ==> templates.rows == old(templates.rows)
      ensures result.Success? ==>
        && id in old(templates.rows)
        && result.value == ApplyTemplateChanges(old(templates.rows)[id], request)
        && templates.rows == old(templates.rows)[id := result.value]
      ensures UniqueWindows(old(templates.rows)) ==> UniqueWindows(templates.rows)
      ensures NonEmptyWindows(old(templates.rows)) ==> NonEmptyWindows(templates.rows)
    {
      if id !in templates.rows {
        return Failure(TemplateNotFound);
      }
      if ExistsByStartTimeAndEndTimeAndIdNot(templates.rows, request.startTime.value, request.endTime.value, id) {
        return Failure(DuplicateTemplate);
      }
      var updated := ApplyTemplateChanges(templates.rows[id], request);
      ghost var rows0 := templates.rows;
      templates.Update(updated);
      if UniqueWindows(rows0) {
        SaveKeepsUniqueWindows(rows0, updated);
      }
      result := Success(updated);
    }

    /** `delete`. */
    method Delete(id: Id) returns (r: Outcome)
      requires Valid()
      modifies templates
      ensures Valid()
      ensures id !in old(templates.rows) ==> r == Fail(TemplateNotFound) && templates.rows == old(templates.rows)
      ensures id in old(templates.rows) ==> r.Pass? && templates.rows == old(templates.rows) - {id}
    {
      if id !in templates.rows {
        return Fail(TemplateNotFound);
      }
      templates.Delete(id);
      r := Pass;
    }
  }
}
